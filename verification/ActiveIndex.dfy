/** The sorted set of active passes is a faithful index of the ticket hashes:
queue/internal/store/store.go, MarkAdmitted and Counts. */
module ActiveIndex {
  import opened QueueProtocol

  /** Admitted through the queue: a ticket admitted directly has no score and is not counted. */
  predicate QueueAdmitted(tickets: map<Id, Ticket>, x: Id) {
    x in tickets && tickets[x].status == Admitted && tickets[x].score > 0
  }

  /** Every member is an admitted ticket with its expiry, and every pass that is still valid after
      the last purge is a member; the tickets of `but` are left out of account. */
  ghost predicate Faithful(s: Room, now: int, but: set<Id>) {
    && (forall x :: x in s.active && x !in but ==> QueueAdmitted(s.tickets, x) && s.active[x] == s.tickets[x].exp)
    && (forall x :: QueueAdmitted(s.tickets, x) && x !in but && s.tickets[x].exp > now ==> x in s.active)
  }

  /** The tickets whose hash was marked after their last index command, or whose last index command
      carried another expiry than the hash. */
  function Unsettled(path: seq<Room>, steps: seq<Step>, i: nat): set<Id>
    requires i <= |steps| < |path|
  {
    if i == 0 then {}
    else
      var before := Unsettled(path, steps, i - 1);
      var s, st := path[i - 1], steps[i - 1];
      if st.MarkHash? then before + {st.id}
      else if !st.AddActive? then before
      else if st.id in s.tickets && s.tickets[st.id].exp == st.exp then before - {st.id}
      else before + {st.id}
  }

  ghost predicate PurgedBefore(steps: seq<Step>, now: int) {
    forall i :: 0 <= i < |steps| && steps[i].PurgeActive? ==> steps[i].now <= now
  }

  /** A MarkAdmitted that has sent its first command has admitted its ticket. */
  ghost predicate MarkedFirst(s: Room) {
    forall x, exp :: (x, exp) in s.marks ==> QueueAdmitted(s.tickets, x)
  }

  lemma MarkingUnsettles(s: Room, st: Step, now: int, but: set<Id>)
    requires Inv(s) && Enabled(s, st) && st.MarkHash? && Faithful(s, now, but) && MarkedFirst(s)
    ensures Faithful(Apply(s, st), now, but + {st.id}) && MarkedFirst(Apply(s, st))
  {
    hide WavesOk, KnownOk;
    forall x, exp | (x, exp) in Apply(s, st).marks ensures QueueAdmitted(Apply(s, st).tickets, x) {
      assert x == st.id || (x, exp) in s.marks;
    }
  }

  lemma IndexingSettles(s: Room, st: Step, now: int, but: set<Id>)
    requires Enabled(s, st) && st.AddActive? && Faithful(s, now, but) && MarkedFirst(s)
    ensures MarkedFirst(Apply(s, st))
    ensures Faithful(Apply(s, st), now, if s.tickets[st.id].exp == st.exp then but - {st.id} else but + {st.id})
  {
    assert QueueAdmitted(s.tickets, st.id);
    forall x, exp | (x, exp) in Apply(s, st).marks ensures QueueAdmitted(Apply(s, st).tickets, x) {
      assert (x, exp) in s.marks;
    }
  }

  lemma OtherStepsKeepIndex(s: Room, st: Step, now: int, but: set<Id>)
    requires Inv(s) && Enabled(s, st) && !st.MarkHash? && !st.AddActive? && Faithful(s, now, but) && MarkedFirst(s)
    requires st.PurgeActive? ==> st.now <= now
    ensures Faithful(Apply(s, st), now, but) && MarkedFirst(Apply(s, st))
  {
    hide Inv, Enabled, Faithful, WavesAfter, PendingAfter, CreatingAfter, PoppedAfter, RankedAfter, KnownAfter, PollsAfter, BatchAfter,
      TicketsAfter, ActiveAfter;
    AdmittedStay(s, st);
    OtherStepsKeepActive(s, st, now, but);
    forall x, exp | (x, exp) in Apply(s, st).marks ensures QueueAdmitted(Apply(s, st).tickets, x) {
      assert (x, exp) in s.marks;
    }
  }

  /** Besides MarkHash no step admits a ticket of the queue, and none takes an admission back. */
  lemma AdmittedStay(s: Room, st: Step)
    requires Inv(s) && Enabled(s, st) && !st.MarkHash?
    ensures forall x :: QueueAdmitted(TicketsAfter(s, st), x) <==> QueueAdmitted(s.tickets, x)
    ensures forall x :: QueueAdmitted(s.tickets, x) ==> TicketsAfter(s, st)[x].exp == s.tickets[x].exp
  {
    hide WavesOk, KnownOk, MaySend, IsHead;
  }

  lemma OtherStepsKeepActive(s: Room, st: Step, now: int, but: set<Id>)
    requires Inv(s) && Enabled(s, st) && !st.MarkHash? && !st.AddActive? && Faithful(s, now, but)
    requires st.PurgeActive? ==> st.now <= now
    ensures Faithful(Apply(s, st), now, but)
  {
    hide Inv, Enabled, TicketsAfter, WavesAfter, PendingAfter, CreatingAfter, PoppedAfter, RankedAfter, KnownAfter,
      PollsAfter, BatchAfter, MarksAfter;
    AdmittedStay(s, st);
    var t := Apply(s, st);
    forall x | x in t.active && x !in but ensures QueueAdmitted(t.tickets, x) && t.active[x] == t.tickets[x].exp {
      assert x in s.active;
      assert QueueAdmitted(s.tickets, x);
    }
    forall x | QueueAdmitted(t.tickets, x) && x !in but && t.tickets[x].exp > now ensures x in t.active {
      assert QueueAdmitted(s.tickets, x);
      assert x in s.active && s.active[x] == s.tickets[x].exp;
    }
  }

  lemma {:induction false} FaithfulAlong(path: seq<Room>, steps: seq<Step>, now: int, i: nat)
    requires Run(Any, path, steps) && Inv(path[0]) && Faithful(path[0], now, {}) && MarkedFirst(path[0])
    requires PurgedBefore(steps, now) && i <= |steps|
    ensures Inv(path[i]) && MarkedFirst(path[i]) && Faithful(path[i], now, Unsettled(path, steps, i))
  {
    hide Inv, Faithful, Apply, Enabled, MarkedFirst;
    if i > 0 {
      FaithfulAlong(path, steps, now, i - 1);
      var s, st, but := path[i - 1], steps[i - 1], Unsettled(path, steps, i - 1);
      InvKept(s, st);
      if st.MarkHash? {
        MarkingUnsettles(s, st, now, but);
      } else if st.AddActive? {
        IndexedIsTicket(s, st);
        IndexingSettles(s, st, now, but);
      } else {
        OtherStepsKeepIndex(s, st, now, but);
      }
    }
  }

  lemma IndexedIsTicket(s: Room, st: Step)
    requires Enabled(s, st) && st.AddActive? && MarkedFirst(s)
    ensures st.id in s.tickets
  {
    assert QueueAdmitted(s.tickets, st.id);
  }

  function ValidPasses(tickets: map<Id, Ticket>, now: int): set<Id> {
    set x | x in tickets && QueueAdmitted(tickets, x) && tickets[x].exp > now
  }

  lemma PurgeLeavesValid(s: Room, now: int, but: set<Id>)
    requires Faithful(Apply(s, PurgeActive(now)), now, but)
    ensures Apply(s, PurgeActive(now)).active.Keys - but == ValidPasses(s.tickets, now) - but
  {
  }

  /** What ZCARD active counts once a tick has purged at time now, whatever visitors and other ticks do
      between the commands: apart from the unsettled tickets, exactly the tickets admitted through the
      queue whose pass is still valid, each once, however often it was admitted. The clock of the
      purges may not run backwards. */
  lemma ActiveCountsValidPasses(path: seq<Room>, steps: seq<Step>, now: int, i: nat)
    requires Run(Any, path, steps) && path[0] == EMPTY && PurgedBefore(steps, now)
    requires i < |steps| && steps[i] == PurgeActive(now)
    ensures var but := Unsettled(path, steps, i); path[i + 1].active.Keys - but == ValidPasses(path[i + 1].tickets, now) - but
  {
    hide PurgedBefore, Faithful, Inv, ValidPasses;
    InvInitially();
    EmptyIsFaithful(now);
    FaithfulAlong(path, steps, now, i + 1);
    PurgeLeavesValid(path[i], now, Unsettled(path, steps, i));
  }

  lemma EmptyIsFaithful(now: int)
    ensures Faithful(EMPTY, now, {}) && MarkedFirst(EMPTY)
  {
  }

  // ---- which tickets are unsettled ----

  /** No MarkAdmitted of a ticket begins while another one of the same ticket is under way. */
  ghost predicate MarksApart(path: seq<Room>, steps: seq<Step>)
    requires |path| > |steps|
  {
    forall i, exp :: 0 <= i < |steps| && steps[i].MarkHash? ==> (steps[i].id, exp) !in path[i].marks
  }

  /** The tickets whose MarkAdmitted has written their hash but not yet sent its index command. */
  function UnderWay(s: Room): set<Id> {
    set x | x in s.tickets && (x, s.tickets[x].exp) in s.marks
  }

  /** The tickets whose last MarkAdmitted ended after its first command. */
  function CutShort(steps: seq<Step>, i: nat): set<Id>
    requires i <= |steps|
  {
    if i == 0 then {}
    else
      var before, st := CutShort(steps, i - 1), steps[i - 1];
      if st.MarkHash? then before - {st.id}
      else if st.CutMark? then before + {st.id}
      else before
  }

  /** A ticket has at most one MarkAdmitted under way, with the expiry of its hash. */
  ghost predicate OneMarkEach(s: Room) {
    forall x, exp :: (x, exp) in s.marks ==> s.marks[(x, exp)] == 1 && x in s.tickets && s.tickets[x].exp == exp
  }

  lemma OneMarkStays(s: Room, st: Step)
    requires Inv(s) && Enabled(s, st) && OneMarkEach(s) && (st.MarkHash? ==> st.id !in UnderWay(s))
    ensures OneMarkEach(Apply(s, st))
  {
    hide WavesOk, KnownOk, PendingOk, HeldOk, MaySend, IsHead, WavesAfter, PendingAfter, ActiveAfter, CreatingAfter, PoppedAfter,
      RankedAfter, KnownAfter, PollsAfter, BatchAfter;
    var t := Apply(s, st);
    forall x, exp | (x, exp) in t.marks ensures t.marks[(x, exp)] == 1 && x in t.tickets && t.tickets[x].exp == exp {
      assert (st.MarkHash? && x == st.id && exp == st.exp) || (x, exp) in s.marks;
    }
  }

  lemma UnderWayAfter(s: Room, st: Step)
    requires Inv(s) && Enabled(s, st) && OneMarkEach(s) && OneMarkEach(Apply(s, st))
    ensures UnderWay(Apply(s, st)) == if st.MarkHash? then UnderWay(s) + {st.id}
      else if st.AddActive? || st.CutMark? then UnderWay(s) - {st.id} else UnderWay(s)
    ensures st.AddActive? || st.CutMark? ==> st.id in UnderWay(s) && st.id in s.tickets && s.tickets[st.id].exp == st.exp
  {
    hide Inv, WavesAfter, PendingAfter, ActiveAfter, CreatingAfter, PoppedAfter, RankedAfter, KnownAfter, PollsAfter, BatchAfter,
      MaySend, IsHead;
    if !st.MarkHash? && !st.AddActive? && !st.CutMark? {
      hide Enabled, TicketsAfter;
      ExpiriesStay(s, st);
    }
  }

  /** Only MarkHash changes an expiry. */
  lemma ExpiriesStay(s: Room, st: Step)
    requires Enabled(s, st) && !st.MarkHash?
    ensures forall x :: x in s.tickets ==> x in TicketsAfter(s, st) && TicketsAfter(s, st)[x].exp == s.tickets[x].exp
  {
    hide MaySend, IsHead;
  }

  /** If the MarkAdmitteds of one ticket do not overlap, the unsettled tickets are those whose
      MarkAdmitted is under way or was cut short after its first command. */
  lemma {:induction false} UnsettledAre(path: seq<Room>, steps: seq<Step>, i: nat)
    requires Run(Any, path, steps) && path[0] == EMPTY && MarksApart(path, steps) && i <= |steps|
    ensures OneMarkEach(path[i]) && UnderWay(path[i]) !! CutShort(steps, i)
    ensures Unsettled(path, steps, i) == UnderWay(path[i]) + CutShort(steps, i)
  {
    hide Apply, Enabled, OneMarkEach, UnderWay, Inv;
    InvInitially();
    if i > 0 {
      UnsettledAre(path, steps, i - 1);
      InvAlways(Any, path, steps, i - 1);
      NotUnderWay(path[i - 1], steps[i - 1]);
      OneMarkStays(path[i - 1], steps[i - 1]);
      UnderWayAfter(path[i - 1], steps[i - 1]);
      UnsettledNext(path, steps, i);
    } else {
      NoneUnderWay();
    }
  }

  lemma UnsettledNext(path: seq<Room>, steps: seq<Step>, i: nat)
    requires 0 < i <= |steps| < |path| && UnderWay(path[i - 1]) !! CutShort(steps, i - 1)
    requires Unsettled(path, steps, i - 1) == UnderWay(path[i - 1]) + CutShort(steps, i - 1)
    requires var st, now := steps[i - 1], UnderWay(path[i - 1]);
      UnderWay(path[i]) == if st.MarkHash? then now + {st.id} else if st.AddActive? || st.CutMark? then now - {st.id} else now
    requires var s, st := path[i - 1], steps[i - 1];
      st.AddActive? || st.CutMark? ==> st.id in UnderWay(s) && st.id in s.tickets && s.tickets[st.id].exp == st.exp
    ensures UnderWay(path[i]) !! CutShort(steps, i)
    ensures Unsettled(path, steps, i) == UnderWay(path[i]) + CutShort(steps, i)
  {
    hide UnderWay;
    var st, open, cut := steps[i - 1], UnderWay(path[i - 1]), CutShort(steps, i - 1);
    if st.AddActive? {
      assert (open + cut) - {st.id} == (open - {st.id}) + cut;
    } else if st.CutMark? {
      assert open + cut == (open - {st.id}) + (cut + {st.id});
    } else if st.MarkHash? {
      assert open + cut + {st.id} == (open + {st.id}) + (cut - {st.id});
    }
  }

  lemma NotUnderWay(s: Room, st: Step)
    requires st.MarkHash? ==> forall exp :: (st.id, exp) !in s.marks
    ensures st.MarkHash? ==> st.id !in UnderWay(s)
  {
  }

  lemma NoneUnderWay()
    ensures UnderWay(EMPTY) == {} && OneMarkEach(EMPTY)
  {
  }
}
