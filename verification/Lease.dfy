/** A worker name as a lease: claimed by MarkOnline, renewed by heartbeats, given up by
    MarkOffline, and lost by a crash. Any number of processes compete for one name. */
module Lease {
  import opened Text
  import opened Workers

  /** `holding` maps each live process that registered successfully to the time of its last
      successful write of last_seen. */
  datatype State = State(now: int, row: Option<Row>, holding: map<nat, int>)

  const Start := State(0, None, map[])

  datatype Event =
    | Tick(seconds: nat)
    | Register(process: nat, heartbeat: nat, kinds: string)
    | Beat(process: nat, works: bool)
    | Stop(process: nat)
    | Crash(process: nat)   // also a stop whose MarkOffline failed

  predicate Enabled(s: State, e: Event) {
    match e
    case Tick(_) => true
    case Register(p, _, _) => p !in s.holding
    case Beat(p, works) => p in s.holding && (works ==> s.row.Some?)
    case Stop(p) => p in s.holding && s.row.Some?
    case Crash(p) => p in s.holding
  }

  predicate Claims(s: State, heartbeat: nat) {
    CanClaim(s.row, s.now, heartbeat)
  }

  function Next(s: State, e: Event): State
    requires Enabled(s, e)
  {
    match e
    case Tick(d) => s.(now := s.now + d)
    case Register(p, h, kinds) =>
      if Claims(s, h) then s.(row := Some(Claimed(s.row, kinds, s.now)), holding := s.holding[p := s.now])
      else s
    case Beat(p, works) =>
      if works then s.(row := Some(s.row.value.(lastSeen := s.now)), holding := s.holding[p := s.now])
      else s
    case Stop(p) =>
      s.(row := Some(s.row.value.(online := false, lastSeen := s.now)), holding := s.holding - {p})
    case Crash(p) => s.(holding := s.holding - {p})
  }

  /** When a claimant with heartbeat h registers, every live holder has written last_seen within
      the last 2h seconds. */
  ghost predicate Timely(s: State, e: Event) {
    e.Register? ==> forall q :: q in s.holding ==> s.now - s.holding[q] <= 2 * e.heartbeat
  }

  ghost function Exec(run: seq<Event>): Option<State> {
    if run == [] then Some(Start)
    else
      var before := Exec(run[..|run| - 1]);
      var e := run[|run| - 1];
      if before.Some? && Enabled(before.value, e) then Some(Next(before.value, e)) else None
  }

  /** Every registration of the run came in time. */
  ghost predicate TimelyRun(run: seq<Event>) {
    run == [] ||
    var before := Exec(run[..|run| - 1]);
    TimelyRun(run[..|run| - 1]) && (before.Some? ==> Timely(before.value, run[|run| - 1]))
  }

  ghost predicate AtMostOne(s: State) {
    forall p, q :: p in s.holding && q in s.holding ==> p == q
  }

  /** The one live holder is the last to have written the row, which says online. */
  ghost predicate Inv(s: State) {
    && AtMostOne(s)
    && (forall p :: p in s.holding ==> s.row.Some? && s.row.value.online && s.row.value.lastSeen == s.holding[p])
    && (s.row.Some? ==> s.row.value.lastSeen <= s.now)
  }

  lemma StepKeeps(s: State, e: Event)
    requires Inv(s) && Enabled(s, e) && Timely(s, e)
    ensures Inv(Next(s, e))
  {
    if e.Register? {
      assert forall q :: q in s.holding ==> !Claims(s, e.heartbeat);
    }
  }

  lemma {:induction false} TimelyReachable(run: seq<Event>, s: State)
    requires Exec(run) == Some(s) && TimelyRun(run)
    ensures Inv(s)
  {
    if run != [] {
      var before := Exec(run[..|run| - 1]).value;
      TimelyReachable(run[..|run| - 1], before);
      StepKeeps(before, run[|run| - 1]);
    }
  }

  /** Over every interleaving of registrations, heartbeats, stops and crashes in which holders
      write in time, no two live workers hold the name. */
  lemma LeaseSafety(run: seq<Event>, s: State, p: nat, q: nat)
    requires Exec(run) == Some(s) && TimelyRun(run)
    requires p in s.holding && q in s.holding
    ensures p == q
  {
    TimelyReachable(run, s);
  }

  /** And timeliness is exactly what is needed: after such a run, a further registration keeps
      the name single-held if and only if it comes in time. */
  lemma SafeExactlyWhenTimely(run: seq<Event>, s: State, p: nat, heartbeat: nat, kinds: string)
    requires Exec(run) == Some(s) && TimelyRun(run) && p !in s.holding
    ensures AtMostOne(Next(s, Register(p, heartbeat, kinds))) <==> Timely(s, Register(p, heartbeat, kinds))
  {
    TimelyReachable(run, s);
    var e := Register(p, heartbeat, kinds);
    if Timely(s, e) {
      StepKeeps(s, e);
    } else {
      var q :| q in s.holding && s.now - s.holding[q] > 2 * heartbeat;
      var s' := Next(s, e);
      assert p in s'.holding && q in s'.holding;
    }
  }

  /** For whole runs: no two live workers ever hold the name if and only if every registration
      came in time. */
  lemma {:induction false} SafeRunExactlyWhenTimely(run: seq<Event>)
    requires Exec(run).Some?
    ensures TimelyRun(run) <==> forall k: nat :: k <= |run| ==> SafeAfter(run, k)
  {
    if TimelyRun(run) {
      forall k: nat | k <= |run|
        ensures SafeAfter(run, k)
      {
        PrefixTimely(run, k);
        TimelyReachable(run[..k], Exec(run[..k]).value);
      }
    } else {
      var k := FirstLate(run);
      assert !SafeAfter(run, k);
    }
  }

  /** After the first `k` events at most one live worker holds the name. */
  ghost predicate SafeAfter(run: seq<Event>, k: nat)
    requires k <= |run|
  {
    Exec(run[..k]).Some? && AtMostOne(Exec(run[..k]).value)
  }

  lemma {:induction false} PrefixTimely(run: seq<Event>, k: nat)
    requires k <= |run| && Exec(run).Some? && TimelyRun(run)
    ensures Exec(run[..k]).Some? && TimelyRun(run[..k])
  {
    if k == |run| {
      assert run[..k] == run;
    } else {
      PrefixTimely(run[..|run| - 1], k);
      assert run[..|run| - 1][..k] == run[..k];
    }
  }

  /** The first registration that comes late gives the name a second holder. */
  lemma {:induction false} FirstLate(run: seq<Event>) returns (k: nat)
    requires Exec(run).Some? && !TimelyRun(run)
    ensures k <= |run| && !SafeAfter(run, k)
  {
    var front := run[..|run| - 1];
    if TimelyRun(front) {
      var s, e := Exec(front).value, run[|run| - 1];
      SafeExactlyWhenTimely(front, s, e.process, e.heartbeat, e.kinds);
      assert run[..|run|] == run;
      k := |run|;
    } else {
      k := FirstLate(front);
      assert front[..k] == run[..k];
    }
  }

  /** A holder that beats keeps the name for twice the heartbeat of whoever else wants it, and can
      always beat. */
  lemma BeatKeepsName(run: seq<Event>, s: State, p: nat, q: nat, seconds: nat, heartbeat: nat, kinds: string)
    requires Exec(run) == Some(s) && TimelyRun(run) && p in s.holding && q !in s.holding
    requires seconds <= 2 * heartbeat
    ensures Enabled(s, Beat(p, true))
    ensures var later := Next(Next(s, Beat(p, true)), Tick(seconds));
      q !in Next(later, Register(q, heartbeat, kinds)).holding
  {
    TimelyReachable(run, s);
  }

  /** A holder can always stop, and then anybody can claim the name at once. */
  lemma StopFreesName(run: seq<Event>, s: State, p: nat, q: nat, heartbeat: nat, kinds: string)
    requires Exec(run) == Some(s) && TimelyRun(run) && p in s.holding
    ensures Enabled(s, Stop(p)) && Enabled(s, Crash(p))
    ensures var free := Next(s, Stop(p));
      && free.holding == map[] && Enabled(free, Register(q, heartbeat, kinds))
      && Next(free, Register(q, heartbeat, kinds)).holding == map[q := s.now]
  {
    TimelyReachable(run, s);
  }

  lemma {:induction false} SeenInThePast(run: seq<Event>, s: State)
    requires Exec(run) == Some(s)
    ensures s.row.Some? ==> s.row.value.lastSeen <= s.now
  {
    if run != [] {
      SeenInThePast(run[..|run| - 1], Exec(run[..|run| - 1]).value);
    }
  }

  /** A name nobody live holds can be claimed again exactly when its row is offline or more than
      twice the claimant's heartbeat has passed since last_seen, and waiting makes it so. */
  lemma CrashedNameReclaimable(run: seq<Event>, s: State, p: nat, heartbeat: nat, kinds: string)
    requires Exec(run) == Some(s) && s.holding == map[] && s.row.Some?
    ensures p in Next(s, Register(p, heartbeat, kinds)).holding <==>
      !s.row.value.online || s.now - s.row.value.lastSeen > 2 * heartbeat
    ensures p in Next(Next(s, Tick(2 * heartbeat + 1)), Register(p, heartbeat, kinds)).holding
  {
    SeenInThePast(run, s);
  }
}
