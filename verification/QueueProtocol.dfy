/** The waiting room as a state machine over single Redis commands.

A state is what Redis holds for one room, plus what the running processes (visitors' requests,
status polls, admitters on any number of replicas) hold in their hands between two commands.
Each step is one command. A process that still means to send a ZADD holds the right to do so: a
ranking from the score it wrote until its ZADD, a status poll from the read that found the ticket
waiting, a tick from its ZPOPMIN until it is done with the ticket. A process that dies, or that
returns because of an error, lets go of what it holds. So every interleaving of requests, polls,
ticks, errors and deaths is a sequence of these steps.

Ticket ids are 32 hexadecimal digits of fixed width: their lexicographic order, which Redis uses
between equal scores, is the order of the numbers they write, so an id is a nat here.
*/
module QueueProtocol {
  import opened Scores
  import opened Sequences

  type Id = nat

  datatype Status = Waiting | Admitted

  /** The ticket hash. score is 0 until the wave is ranked. */
  datatype Ticket = Ticket(wave: nat, status: Status, score: nat, exp: int)

  type Poll = nat

  datatype Room = Room(
    waves: map<int, set<Id>>,      // wave:<n>
    tickets: map<Id, Ticket>,      // t:<id>
    pending: map<Id, nat>,         // sorted set, score of each member
    active: map<Id, int>,          // sorted set, expiry of each member
    lastWave: int,                 // lastwave, -1 when absent
    creating: set<Id>,             // hash written, not yet added to its wave
    popped: map<Id, nat>,          // taken out of this wave, score not yet written
    ranked: set<Id>,               // score written, ZADD not yet sent by the ranking
    known: set<(Id, nat)>,         // (ticket, score) written by a ranking or read by a tick
    polls: map<Poll, (Id, nat)>,   // polls that read the ticket as waiting, with its score
    batch: multiset<Id>,           // taken out of pending by a tick that is not done with them
    marks: multiset<(Id, int)>)    // hash marked by a MarkAdmitted that has not sent its index command

  /** Whose ZADD it is. */
  datatype Sender = Ranking | StatusPoll(p: Poll) | Tick

  datatype Step =
    | CreateHash(id: Id, arrival: nat)
    | AddToWave(id: Id)
    | AdmitDirect(id: Id, exp: int)
    | PopWave(wave: int, taken: set<Id>)
    | WriteScore(id: Id, rank: nat)
    | ZAdd(id: Id, score: nat, sender: Sender)
    | DelWave(wave: int)
    | SetLastWave(wave: int)
    | PopPending(head: seq<Id>)
    | PollTicket(p: Poll, id: Id)
    | EndPoll(p: Poll)
    | ReadBatch(id: Id)
    | MarkHash(id: Id, exp: int)
    | AddActive(id: Id, exp: int)
    | CutMark(id: Id, exp: int)
    | Finish(id: Id)
    | PurgeActive(now: int)
    | DelPending
    | LetGo(gone: set<Id>)

  const EMPTY: Room := Room(map[], map[], map[], map[], -1, {}, map[], {}, {}, map[], multiset{}, multiset{})

  function At(waves: map<int, set<Id>>, n: int): set<Id> {
    if n in waves then waves[n] else {}
  }

  function WaveSet(s: Room, n: int): set<Id> {
    At(s.waves, n)
  }

  /** Order of the sorted set: by score, then by member. */
  predicate Before(p: map<Id, nat>, x: Id, y: Id)
    requires x in p && y in p
  {
    p[x] < p[y] || (p[x] == p[y] && x < y)
  }

  /** ids is what ZPOPMIN returns: the first members of the sorted set, in order. */
  ghost predicate IsHead(p: map<Id, nat>, ids: seq<Id>) {
    && (forall i :: 0 <= i < |ids| ==> ids[i] in p)
    && (forall i, j :: 0 <= i < j < |ids| ==> Before(p, ids[i], ids[j]))
    && (forall i, y :: 0 <= i < |ids| && y in p && y !in ids ==> Before(p, ids[i], y))
  }

  function Without<V>(m: map<Id, V>, ids: set<Id>): (r: map<Id, V>)
    ensures r.Keys == m.Keys - ids
    ensures forall x :: x in r ==> r[x] == m[x]
  {
    map x | x in m && x !in ids :: m[x]
  }

  function TakeOut(waves: map<int, set<Id>>, n: int, ids: set<Id>): (r: map<int, set<Id>>)
    ensures forall m :: At(r, m) == if m == n then At(waves, n) - ids else At(waves, m)
  {
    waves[n := At(waves, n) - ids]
  }

  function Unpolled(polls: map<Poll, (Id, nat)>, p: Poll): (r: map<Poll, (Id, nat)>)
    ensures r.Keys == polls.Keys - {p}
    ensures forall q :: q in r ==> r[q] == polls[q]
  {
    polls - {p}
  }

  function InHands(popped: map<Id, nat>, n: nat, ids: set<Id>): (r: map<Id, nat>)
    ensures r.Keys == popped.Keys + ids
    ensures forall x :: x in r ==> r[x] == if x in ids then n else popped[x]
  {
    popped + map x | x in ids :: n
  }

  /** The sender still holds the ticket, and the score is the one it wrote or read. */
  predicate MaySend(s: Room, id: Id, score: nat, sender: Sender) {
    match sender
    case Ranking => id in s.ranked && (id, score) in s.known
    case StatusPoll(p) => p in s.polls && s.polls[p] == (id, score)
    case Tick => id in s.batch && (id, score) in s.known
  }

  ghost predicate Enabled(s: Room, st: Step) {
    match st
    case CreateHash(id, wave) => id !in s.tickets && wave >= 1
    case AddToWave(id) => id in s.creating && id in s.tickets
    case AdmitDirect(id, _) => id !in s.tickets
    case PopWave(n, ids) => ids <= WaveSet(s, n) && (ids != {} ==> n >= 0)
    case WriteScore(id, _) => id in s.popped && id in s.tickets
    case ZAdd(id, score, sender) => MaySend(s, id, score, sender)
    case DelWave(_) => true
    case SetLastWave(_) => true
    case PopPending(ids) => IsHead(s.pending, ids)
    case PollTicket(p, id) => id in s.tickets && p !in s.polls
    case EndPoll(_) => true
    case ReadBatch(id) => id in s.batch && id in s.tickets
    case MarkHash(id, _) => id in s.batch && id in s.tickets
    case AddActive(id, exp) => (id, exp) in s.marks
    case CutMark(id, exp) => (id, exp) in s.marks
    case Finish(id) => id in s.batch
    case PurgeActive(_) => true
    case DelPending => true
    case LetGo(_) => true
  }

  // ---- what each step does to each key, and to what the processes hold ----

  ghost function WavesAfter(s: Room, st: Step): map<int, set<Id>>
    requires Enabled(s, st)
  {
    if st.AddToWave? then s.waves[s.tickets[st.id].wave := WaveSet(s, s.tickets[st.id].wave) + {st.id}]
    else if st.PopWave? && st.taken != {} then TakeOut(s.waves, st.wave, st.taken)
    else if st.DelWave? then s.waves - {st.wave}
    else s.waves
  }

  ghost function TicketsAfter(s: Room, st: Step): map<Id, Ticket>
    requires Enabled(s, st)
  {
    if st.CreateHash? then s.tickets[st.id := Ticket(st.arrival, Waiting, 0, 0)]
    else if st.AdmitDirect? then s.tickets[st.id := Ticket(0, Admitted, 0, st.exp)]
    else if st.WriteScore? then s.tickets[st.id := s.tickets[st.id].(score := WaveScore(s.popped[st.id], st.rank))]
    else if st.MarkHash? then s.tickets[st.id := s.tickets[st.id].(status := Admitted, exp := st.exp)]
    else s.tickets
  }

  ghost function PendingAfter(s: Room, st: Step): map<Id, nat>
    requires Enabled(s, st)
  {
    if st.ZAdd? then s.pending[st.id := st.score]
    else if st.PopPending? then Without(s.pending, Elements(st.head))
    else if st.DelPending? then map[]
    else s.pending
  }

  ghost function ActiveAfter(s: Room, st: Step): map<Id, int>
    requires Enabled(s, st)
  {
    if st.AddActive? then s.active[st.id := st.exp]
    else if st.PurgeActive? then map x | x in s.active && s.active[x] > st.now :: s.active[x]
    else s.active
  }

  ghost function CreatingAfter(s: Room, st: Step): set<Id>
    requires Enabled(s, st)
  {
    if st.CreateHash? then s.creating + {st.id}
    else if st.AddToWave? then s.creating - {st.id}
    else if st.LetGo? then s.creating - st.gone
    else s.creating
  }

  ghost function PoppedAfter(s: Room, st: Step): map<Id, nat>
    requires Enabled(s, st)
  {
    if st.PopWave? && st.taken != {} then InHands(s.popped, st.wave, st.taken)
    else if st.WriteScore? then Without(s.popped, {st.id})
    else if st.LetGo? then Without(s.popped, st.gone)
    else s.popped
  }

  ghost function RankedAfter(s: Room, st: Step): set<Id>
    requires Enabled(s, st)
  {
    if st.WriteScore? then s.ranked + {st.id}
    else if st.ZAdd? && st.sender == Ranking then s.ranked - {st.id}
    else if st.LetGo? then s.ranked - st.gone
    else s.ranked
  }

  ghost function KnownAfter(s: Room, st: Step): set<(Id, nat)>
    requires Enabled(s, st)
  {
    if st.WriteScore? then s.known + {(st.id, WaveScore(s.popped[st.id], st.rank))}
    else if st.ReadBatch? && s.tickets[st.id].score > 0 then s.known + {(st.id, s.tickets[st.id].score)}
    else s.known
  }

  ghost function PollsAfter(s: Room, st: Step): map<Poll, (Id, nat)>
    requires Enabled(s, st)
  {
    if st.PollTicket? && s.tickets[st.id].status == Waiting && s.tickets[st.id].score > 0 then
      s.polls[st.p := (st.id, s.tickets[st.id].score)]
    else if st.EndPoll? then Unpolled(s.polls, st.p)
    else if st.ZAdd? && st.sender.StatusPoll? then Unpolled(s.polls, st.sender.p)
    else s.polls
  }

  ghost function BatchAfter(s: Room, st: Step): multiset<Id>
    requires Enabled(s, st)
  {
    if st.PopPending? then s.batch + multiset(st.head)
    else if st.Finish? || (st.ZAdd? && st.sender == Tick) then s.batch - multiset{st.id}
    else s.batch
  }

  ghost function MarksAfter(s: Room, st: Step): multiset<(Id, int)>
    requires Enabled(s, st)
  {
    if st.MarkHash? then s.marks + multiset{(st.id, st.exp)}
    else if st.AddActive? || st.CutMark? then s.marks - multiset{(st.id, st.exp)}
    else s.marks
  }

  ghost function Apply(s: Room, st: Step): Room
    requires Enabled(s, st)
  {
    Room(WavesAfter(s, st), TicketsAfter(s, st), PendingAfter(s, st), ActiveAfter(s, st),
         if st.SetLastWave? then st.wave else s.lastWave,
         CreatingAfter(s, st), PoppedAfter(s, st), RankedAfter(s, st), KnownAfter(s, st), PollsAfter(s, st), BatchAfter(s, st),
         MarksAfter(s, st))
  }

  // ---- runs ----

  /** Which steps a run may take: all of them; the ones that respect the order of the waves; only those
      of visitors, whose tickets then arrive in waves lo to hi and whose clocks show clock at most; or
      those of everybody, or of everybody but one poll, where no clock shows more than clock. */
  datatype Policy = Any | InOrder | Visitors(lo: int, hi: int, clock: int) | Timely(clock: int) | Besides(p: Poll, clock: int)

  /** Some process may still send the ticket's ZADD. */
  predicate Held(s: Room, x: Id) {
    x in s.ranked || x in s.batch || exists p :: p in s.polls && s.polls[p].0 == x
  }

  /** The ticket is being ranked, or it is ranked and is, or can still be, in the queue. */
  predicate Live(s: Room, x: Id) {
    || x in s.popped
    || (x in s.tickets && s.tickets[x].score > 0 && (s.tickets[x].status == Waiting || x in s.pending || Held(s, x)))
  }

  /** No ticket joins a wave while one of a later wave is being ranked, or is or can still get into the
      queue; a wave is only opened when the earlier ones are empty; and ranks stay below the next wave. */
  ghost predicate RespectsOrder(s: Room, st: Step) {
    match st
    case AddToWave(id) =>
      id in s.tickets && forall x :: Live(s, x) && x in s.tickets ==> s.tickets[x].wave <= s.tickets[id].wave
    case PopWave(n, taken) => taken != {} ==> forall m :: m < n ==> WaveSet(s, m) == {}
    case WriteScore(id, rank) =>
      id in s.popped && SafeRank(s.popped[id], rank) && Raw(s.popped[id], rank) < TWO_63
    case _ => true
  }

  predicate InTime(st: Step, clock: int) {
    st.PurgeActive? ==> st.now <= clock
  }

  ghost predicate ByVisitor(s: Room, st: Step, lo: int, hi: int, clock: int) {
    match st
    case CreateHash(_, _) => true
    case AddToWave(id) => id in s.tickets && lo <= s.tickets[id].wave <= hi
    case AdmitDirect(_, _) => true
    case PollTicket(_, _) => true
    case EndPoll(_) => true
    case ZAdd(_, _, sender) => sender.StatusPoll?
    case PurgeActive(_) => InTime(st, clock)
    case LetGo(gone) => gone !! s.popped.Keys && gone !! s.ranked
    case _ => false
  }

  predicate ByPoll(st: Step, p: Poll) {
    (st.PollTicket? && st.p == p) || (st.EndPoll? && st.p == p) || (st.ZAdd? && st.sender == StatusPoll(p))
  }

  ghost predicate Allowed(p: Policy, s: Room, st: Step) {
    && Enabled(s, st)
    && match p
       case Any => true
       case InOrder => RespectsOrder(s, st)
       case Visitors(lo, hi, clock) => ByVisitor(s, st, lo, hi, clock)
       case Timely(clock) => InTime(st, clock)
       case Besides(p, clock) => !ByPoll(st, p) && InTime(st, clock)
  }

  /** path[i+1] is path[i] after steps[i]. */
  ghost predicate Run(p: Policy, path: seq<Room>, steps: seq<Step>) {
    && |path| == |steps| + 1
    && forall i :: 0 <= i < |steps| ==> Allowed(p, path[i], steps[i]) && path[i + 1] == Apply(path[i], steps[i])
  }

  ghost predicate RunBetween(p: Policy, s: Room, path: seq<Room>, steps: seq<Step>, t: Room) {
    Run(p, path, steps) && path[0] == s && path[|steps|] == t
  }

  ghost predicate Reaches(p: Policy, s: Room, t: Room) {
    exists path, steps :: RunBetween(p, s, path, steps, t)
  }

  lemma ReachesItself(p: Policy, s: Room)
    ensures Reaches(p, s, s)
  {
    assert RunBetween(p, s, [s], [], s);
  }

  lemma ReachesNext(p: Policy, s: Room, t: Room, st: Step)
    requires Reaches(p, s, t) && Allowed(p, t, st)
    ensures Reaches(p, s, Apply(t, st))
  {
    var path, steps :| RunBetween(p, s, path, steps, t);
    assert RunBetween(p, s, path + [Apply(t, st)], steps + [st], Apply(t, st));
  }

  lemma {:induction false} ReachesAlong(p: Policy, s: Room, path: seq<Room>, steps: seq<Step>, i: nat)
    requires Run(p, path, steps) && i < |path| && Reaches(p, s, path[0])
    ensures Reaches(p, s, path[i])
  {
    if i > 0 {
      ReachesAlong(p, s, path, steps, i - 1);
      ReachesNext(p, s, path[i - 1], steps[i - 1]);
    }
  }

  lemma ReachesTransitive(p: Policy, s: Room, t: Room, u: Room)
    requires Reaches(p, s, t) && Reaches(p, t, u)
    ensures Reaches(p, s, u)
  {
    var path, steps :| RunBetween(p, t, path, steps, u);
    ReachesAlong(p, s, path, steps, |steps|);
  }

  // ---- the invariant ----

  predicate Unranked(tickets: map<Id, Ticket>, x: Id) {
    x in tickets && tickets[x].score == 0 && tickets[x].status == Waiting
  }

  ghost predicate WavesOk(waves: map<int, set<Id>>, tickets: map<Id, Ticket>, popped: map<Id, nat>, creating: set<Id>) {
    forall n, x :: n in waves && x in waves[n] ==>
      Unranked(tickets, x) && tickets[x].wave == n && x !in popped && x !in creating
  }

  ghost predicate PoppedOk(popped: map<Id, nat>, tickets: map<Id, Ticket>, creating: set<Id>) {
    forall x :: x in popped ==> Unranked(tickets, x) && tickets[x].wave == popped[x] && x !in creating
  }

  ghost predicate KnownOk(known: set<(Id, nat)>, tickets: map<Id, Ticket>) {
    forall x, score :: (x, score) in known ==> x in tickets && tickets[x].score == score > 0
  }

  predicate Scored(tickets: map<Id, Ticket>, x: Id) {
    x in tickets && tickets[x].score > 0
  }

  ghost predicate HeldOk(s: Room) {
    && (forall x :: x in s.batch ==> Scored(s.tickets, x))
    && (forall x :: x in s.ranked ==> Scored(s.tickets, x) && (x, s.tickets[x].score) in s.known)
    && (forall p :: p in s.polls ==> Scored(s.tickets, s.polls[p].0) && s.tickets[s.polls[p].0].score == s.polls[p].1)
  }

  ghost predicate PendingOk(pending: map<Id, nat>, tickets: map<Id, Ticket>) {
    forall x :: x in pending ==> Scored(tickets, x) && tickets[x].score == pending[x]
  }

  /** A ticket is in one place only: being created, in the set of its own wave, taken out of it, or
      ranked. */
  ghost predicate PlacesOk(s: Room) {
    && WavesOk(s.waves, s.tickets, s.popped, s.creating)
    && PoppedOk(s.popped, s.tickets, s.creating)
    && (forall x :: x in s.creating ==> Unranked(s.tickets, x))
    && (forall x :: x in s.tickets && s.tickets[x].status == Waiting ==> s.tickets[x].wave >= 1)
  }

  /** A pending score is the score of the ticket hash, and so is every score that a process may still
      send. */
  ghost predicate ScoresOk(s: Room) {
    KnownOk(s.known, s.tickets) && HeldOk(s) && PendingOk(s.pending, s.tickets)
  }

  ghost predicate Inv(s: Room) {
    PlacesOk(s) && ScoresOk(s)
  }

  lemma ScorePositive(wave: nat, rank: nat)
    requires wave >= 1
    ensures WaveScore(wave, rank) > 0
  {
    NeverBelowThreshold(Raw(wave, rank), 1);
  }

  lemma FirstScorePositive(s: Room, x: Id, rank: nat)
    requires Inv(s) && x in s.popped
    ensures WaveScore(s.popped[x], rank) > 0
  {
    ScorePositive(s.popped[x], rank);
  }

  lemma InvInitially()
    ensures Inv(EMPTY)
  {
  }

  lemma InvKept(s: Room, st: Step)
    requires Inv(s) && Enabled(s, st)
    ensures Inv(Apply(s, st))
  {
    hide PlacesOk, ScoresOk, Enabled, Apply;
    PlacesKept(s, st);
    ScoresKept(s, st);
  }

  lemma PlacesKept(s: Room, st: Step)
    requires Inv(s) && Enabled(s, st)
    ensures PlacesOk(Apply(s, st))
  {
    hide PendingAfter, ActiveAfter, RankedAfter, KnownAfter, PollsAfter, BatchAfter, MarksAfter, IsHead, MaySend, KnownOk, PendingOk, WaveScore;
    WavesKept(s, st);
    hide WavesAfter, WavesOk;
  }

  lemma WavesKept(s: Room, st: Step)
    requires Inv(s) && Enabled(s, st)
    ensures WavesOk(WavesAfter(s, st), TicketsAfter(s, st), PoppedAfter(s, st), CreatingAfter(s, st))
  {
    hide IsHead, MaySend, KnownOk, PendingOk, WaveScore;
  }

  /** Scores are written once. */
  lemma HashesKept(s: Room, st: Step)
    requires Inv(s) && Enabled(s, st)
    ensures forall x :: Scored(s.tickets, x) ==>
      Scored(TicketsAfter(s, st), x) && TicketsAfter(s, st)[x].score == s.tickets[x].score
  {
    hide IsHead, MaySend, KnownOk, PendingOk, WaveScore, WavesOk;
  }

  lemma ScoresKept(s: Room, st: Step)
    requires Inv(s) && Enabled(s, st)
    ensures ScoresOk(Apply(s, st))
  {
    hide PlacesOk, Enabled, TicketsAfter, WavesAfter, CreatingAfter, PoppedAfter, ActiveAfter, KnownAfter, PendingAfter,
      RankedAfter, PollsAfter, BatchAfter, MarksAfter, Scored;
    KnownKept(s, st);
    PendingKept(s, st);
    RankedKept(s, st);
    PollsKept(s, st);
    BatchKept(s, st);
  }

  lemma KnownKept(s: Room, st: Step)
    requires Inv(s) && Enabled(s, st)
    ensures KnownOk(KnownAfter(s, st), TicketsAfter(s, st))
  {
    hide PlacesOk, HeldOk, PendingOk, WaveScore, IsHead, MaySend;
    HashesKept(s, st);
    if st.WriteScore? {
      FirstScorePositive(s, st.id, st.rank);
    } else {
      hide TicketsAfter;
    }
  }

  lemma PendingKept(s: Room, st: Step)
    requires Inv(s) && Enabled(s, st)
    ensures PendingOk(PendingAfter(s, st), TicketsAfter(s, st))
  {
    hide PlacesOk, TicketsAfter, IsHead;
    HashesKept(s, st);
  }

  lemma RankedKept(s: Room, st: Step)
    requires Inv(s) && Enabled(s, st)
    ensures forall x :: x in RankedAfter(s, st) ==>
      Scored(TicketsAfter(s, st), x) && (x, TicketsAfter(s, st)[x].score) in KnownAfter(s, st)
  {
    hide PlacesOk, KnownOk, PendingOk, WaveScore, IsHead, MaySend;
    HashesKept(s, st);
    if st.WriteScore? {
      FirstScorePositive(s, st.id, st.rank);
    } else {
      hide TicketsAfter;
    }
  }

  lemma PollsKept(s: Room, st: Step)
    requires Inv(s) && Enabled(s, st)
    ensures forall p :: p in PollsAfter(s, st) ==>
      Scored(TicketsAfter(s, st), PollsAfter(s, st)[p].0) && TicketsAfter(s, st)[PollsAfter(s, st)[p].0].score == PollsAfter(s, st)[p].1
  {
    hide PlacesOk, KnownOk, PendingOk, TicketsAfter, IsHead, MaySend;
    HashesKept(s, st);
  }

  lemma BatchKept(s: Room, st: Step)
    requires Inv(s) && Enabled(s, st)
    ensures forall x :: x in BatchAfter(s, st) ==> Scored(TicketsAfter(s, st), x)
  {
    hide PlacesOk, KnownOk, TicketsAfter, MaySend;
    HashesKept(s, st);
  }

  lemma {:induction false} InvAlways(p: Policy, path: seq<Room>, steps: seq<Step>, i: nat)
    requires Run(p, path, steps) && Inv(path[0]) && i < |path|
    ensures Inv(path[i])
  {
    if i > 0 {
      InvAlways(p, path, steps, i - 1);
      InvKept(path[i - 1], steps[i - 1]);
    }
  }

  lemma InvReached(p: Policy, s: Room, t: Room)
    requires Inv(s) && Reaches(p, s, t)
    ensures Inv(t)
  {
    var path, steps :| RunBetween(p, s, path, steps, t);
    InvAlways(p, path, steps, |steps|);
  }
}
