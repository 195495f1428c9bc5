/** The lock table that keeps migration runs apart. */
module MigrationLock {

  type Runner = nat

  /** Where a runner stands: outside, about to name itself as the holder of the table it created,
      looking at the age of a table it found, about to drop a stale one, or inside. */
  datatype Phase = Outside | Retrying | Naming | Looking(retry: bool) | Dropping | Inside

  datatype State = State(table: bool, phases: map<Runner, Phase>)

  const FREE := State(false, map[])

  datatype Event =
    | Create(runner: Runner)
    | Name(runner: Runner, ok: bool)
    | Look(runner: Runner, stale: bool)
    | Drop(runner: Runner)
    | Leave(runner: Runner)
    | Crash(runner: Runner)

  function PhaseOf(s: State, r: Runner): Phase {
    if r in s.phases then s.phases[r] else Outside
  }

  function Move(s: State, r: Runner, p: Phase): State {
    s.(phases := s.phases[r := p])
  }

  /** One step; a step that is not possible changes nothing. Only one creation of the table succeeds;
      a creator that cannot name itself goes away and leaves the table, as one that crashes does. A
      table that is gone has no age, so it is not stale. */
  function Step(s: State, e: Event): State {
    var r := e.runner;
    match e
    case Create(_) =>
      if PhaseOf(s, r) != Outside && PhaseOf(s, r) != Retrying then s
      else if s.table then Move(s, r, Looking(PhaseOf(s, r) == Retrying))
      else Move(s.(table := true), r, Naming)
    case Name(_, ok) => if PhaseOf(s, r) == Naming then Move(s, r, if ok then Inside else Outside) else s
    case Look(_, stale) =>
      if !PhaseOf(s, r).Looking? then s
      else if !PhaseOf(s, r).retry && stale && s.table then Move(s, r, Dropping)
      else Move(s, r, Outside)
    case Drop(_) => if PhaseOf(s, r) == Dropping then Move(s.(table := false), r, Retrying) else s
    case Leave(_) => if PhaseOf(s, r) == Inside then Move(s.(table := false), r, Outside) else s
    case Crash(_) => Move(s, r, Outside)
  }

  function Run(events: seq<Event>): State {
    if events == [] then FREE else Step(Run(events[..|events| - 1]), events[|events| - 1])
  }

  /** The state after more steps. */
  function After(s: State, events: seq<Event>): State {
    if events == [] then s else Step(After(s, events[..|events| - 1]), events[|events| - 1])
  }

  lemma {:induction false} RunContinues(events: seq<Event>, more: seq<Event>)
    ensures Run(events + more) == After(Run(events), more)
  {
    hide Step;
    if more == [] {
      assert events + more == events;
    } else {
      RunContinues(events, more[..|more| - 1]);
      assert (events + more)[..|events + more| - 1] == events + more[..|more| - 1];
    }
  }

  lemma RunNext(events: seq<Event>, e: Event)
    ensures Run(events + [e]) == Step(Run(events), e)
  {
    assert (events + [e])[..|events|] == events;
  }

  // ----- Exclusion -----

  predicate Holds(p: Phase) {
    p == Naming || p == Inside
  }

  /** No run is inside or about to be. */
  ghost predicate NobodyHolds(s: State) {
    forall r :: !Holds(PhaseOf(s, r))
  }

  ghost predicate OneInside(s: State) {
    forall r, q :: PhaseOf(s, r) == Inside && PhaseOf(s, q) == Inside ==> r == q
  }

  /** A holder has the table, and there is at most one. */
  ghost predicate Alone(s: State) {
    && (forall r :: Holds(PhaseOf(s, r)) ==> s.table)
    && (forall r, q :: Holds(PhaseOf(s, r)) && Holds(PhaseOf(s, q)) ==> r == q)
  }

  /** A table is dropped as stale only while no run holds the lock. */
  ghost predicate Clean(s: State, e: Event) {
    e.Drop? && PhaseOf(s, e.runner) == Dropping ==> NobodyHolds(s)
  }

  ghost predicate CleanFrom(s: State, events: seq<Event>) {
    forall i :: 0 <= i < |events| ==> Clean(After(s, events[..i]), events[i])
  }

  ghost predicate CleanRun(events: seq<Event>) {
    forall i :: 0 <= i < |events| ==> Clean(Run(events[..i]), events[i])
  }

  lemma StepMovesOne(s: State, e: Event)
    ensures forall r :: r != e.runner ==> PhaseOf(Step(s, e), r) == PhaseOf(s, r)
  {
  }

  lemma StepStaysAlone(s: State, e: Event)
    requires Alone(s) && Clean(s, e)
    ensures Alone(Step(s, e))
  {
    var t := Step(s, e);
    StepMovesOne(s, e);
    forall r | Holds(PhaseOf(t, r)) ensures t.table { assert r != e.runner ==> Holds(PhaseOf(s, r)); }
    forall r, q | Holds(PhaseOf(t, r)) && Holds(PhaseOf(t, q)) ensures r == q {
      assert r != e.runner ==> Holds(PhaseOf(s, r));
      assert q != e.runner ==> Holds(PhaseOf(s, q));
    }
  }

  lemma {:induction false} StaysAlone(s: State, events: seq<Event>)
    requires Alone(s) && CleanFrom(s, events)
    ensures Alone(After(s, events))
  {
    hide Alone, Clean, Step;
    if events != [] {
      var n := |events| - 1;
      forall i | 0 <= i < n ensures Clean(After(s, events[..n][..i]), events[..n][i]) {
        assert events[..n][..i] == events[..i];
      }
      StaysAlone(s, events[..n]);
      StepStaysAlone(After(s, events[..n]), events[n]);
    }
  }

  lemma RunIsAfterFree(events: seq<Event>)
    ensures Run(events) == After(FREE, events)
  {
    RunContinues([], events);
    assert [] + events == events;
  }

  /** However runs interleave, fail, crash and take locks over: as long as no table is dropped under
      a run that holds the lock, at most one run is inside. */
  lemma CleanRunsAreExclusive(events: seq<Event>)
    requires CleanRun(events)
    ensures Alone(Run(events)) && OneInside(Run(events))
  {
    hide Step, Clean;
    RunIsAfterFree(events);
    forall i | 0 <= i < |events| ensures Clean(After(FREE, events[..i]), events[i]) {
      RunIsAfterFree(events[..i]);
      assert Clean(Run(events[..i]), events[i]);
    }
    StaysAlone(FREE, events);
  }

  // ----- The condition is exact -----

  /** From here on, whatever happens with clean drops, at most one run is inside. */
  ghost predicate SafeFrom(s: State) {
    forall more :: CleanFrom(s, more) ==> OneInside(After(s, more))
  }

  lemma AloneIsSafe(s: State)
    requires Alone(s)
    ensures SafeFrom(s)
  {
    hide Alone, OneInside, Clean;
    forall more | CleanFrom(s, more) ensures OneInside(After(s, more)) {
      StaysAlone(s, more);
      AloneMeansOneInside(After(s, more));
    }
  }

  /** After a drop under a holder the taker and the holder both get in. */
  function Joining(r: Runner, q: Runner): seq<Event> {
    [Drop(r), Create(r), Name(r, true), Name(q, true)]
  }

  lemma DropUnderAHolder(s: State, r: Runner, q: Runner)
    requires PhaseOf(s, r) == Dropping && Holds(PhaseOf(s, q))
    ensures var t := After(s, Joining(r, q)); PhaseOf(t, r) == Inside && PhaseOf(t, q) == Inside && r != q
  {
    var all := Joining(r, q);
    assert all[..3] == [Drop(r), Create(r), Name(r, true)] && all[..3][..2] == [Drop(r), Create(r)];
    assert all[..3][..2][..1] == [Drop(r)] && [Drop(r)][..0] == [];
    var a := Step(s, Drop(r));
    var b := Step(a, Create(r));
    var c := Step(b, Name(r, true));
    assert After(s, [Drop(r)]) == a;
    assert After(s, [Drop(r), Create(r)]) == b;
    assert After(s, all[..3]) == c;
  }

  lemma UnsafeDrop(s: State, r: Runner, q: Runner)
    requires PhaseOf(s, r) == Dropping && Holds(PhaseOf(s, q))
    ensures !SafeFrom(Step(s, Drop(r)))
  {
    hide Step;
    var t, more := Step(s, Drop(r)), Joining(r, q)[1..];
    DropUnderAHolder(s, r, q);
    AfterFirst(s, Joining(r, q));
    assert CleanFrom(t, more);
    assert !OneInside(After(t, more));
  }

  /** A drop leaves every continuation with clean drops exclusive exactly when no run holds the lock
      at the drop. */
  lemma DropIsSafeIff(s: State, r: Runner)
    requires Alone(s) && PhaseOf(s, r) == Dropping
    ensures SafeFrom(Step(s, Drop(r))) <==> NobodyHolds(s)
  {
    hide Step, SafeFrom, Alone;
    if NobodyHolds(s) {
      StepStaysAlone(s, Drop(r));
      AloneIsSafe(Step(s, Drop(r)));
    } else {
      var q :| Holds(PhaseOf(s, q));
      UnsafeDrop(s, r, q);
    }
  }

  lemma {:induction false} AfterFirst(s: State, events: seq<Event>)
    requires events != []
    ensures After(s, events) == After(Step(s, events[0]), events[1..])
  {
    hide Step;
    var n := |events| - 1;
    if n == 0 {
      assert events[..0] == [];
    } else {
      AfterFirst(s, events[..n]);
      assert events[..n][1..] == events[1..][..n - 1];
    }
  }

  /** For every run: all its drops are clean exactly when each of its moments, continued in any way
      with clean drops, has at most one run inside. */
  lemma CleanIff(events: seq<Event>)
    ensures CleanRun(events) <==> forall i :: 0 <= i <= |events| ==> SafeFrom(Run(events[..i]))
  {
    hide Step, Alone, SafeFrom, Run;
    if CleanRun(events) {
      forall i | 0 <= i <= |events| ensures SafeFrom(Run(events[..i])) {
        CleanPrefix(events, i);
        CleanRunsAreExclusive(events[..i]);
        AloneIsSafe(Run(events[..i]));
      }
    } else {
      var i :| 0 <= i < |events| && !Clean(Run(events[..i]), events[i]);
      var q :| Holds(PhaseOf(Run(events[..i]), q));
      UnsafeDrop(Run(events[..i]), events[i].runner, q);
      assert events[..i + 1] == events[..i] + [events[i]];
      RunNext(events[..i], events[i]);
      assert events[i] == Drop(events[i].runner);
      assert !SafeFrom(Run(events[..i + 1]));
    }
  }

  lemma CleanPrefix(events: seq<Event>, n: nat)
    requires CleanRun(events) && n <= |events|
    ensures CleanRun(events[..n])
  {
    hide Clean;
    forall i | 0 <= i < n ensures Clean(Run(events[..n][..i]), events[..n][i]) {
      assert events[..n][..i] == events[..i];
    }
  }

  lemma AloneMeansOneInside(s: State)
    requires Alone(s)
    ensures OneInside(s)
  {
  }

  // ----- One taker of a crashed run's lock -----

  predicate TakesOver(e: Event) {
    e.Look? && e.stale
  }

  /** A lock is found stale only when its run is gone and no other run is about to drop it. */
  ghost predicate Justified(s: State, e: Event) {
    TakesOver(e) ==> NobodyHolds(s) && forall r :: PhaseOf(s, r) != Dropping
  }

  ghost predicate JustifiedRun(events: seq<Event>) {
    forall i :: 0 <= i < |events| ==> Justified(Run(events[..i]), events[i])
  }

  /** A table that is about to be dropped is there, nobody holds it, and nobody else will drop it. */
  ghost predicate OneTaker(s: State) {
    && (forall r :: PhaseOf(s, r) == Dropping ==> s.table && NobodyHolds(s))
    && (forall r, q :: PhaseOf(s, r) == Dropping && PhaseOf(s, q) == Dropping ==> r == q)
  }

  lemma StepKeepsOneTaker(s: State, e: Event)
    requires OneTaker(s) && Justified(s, e)
    ensures OneTaker(Step(s, e)) && Clean(s, e)
  {
    var t := Step(s, e);
    StepMovesOne(s, e);
    forall r | PhaseOf(t, r) == Dropping ensures t.table && NobodyHolds(t) {
      if r != e.runner { assert PhaseOf(s, r) == Dropping; }
      forall q ensures !Holds(PhaseOf(t, q)) { assert q != e.runner ==> !Holds(PhaseOf(s, q)); }
    }
    forall r, q | PhaseOf(t, r) == Dropping && PhaseOf(t, q) == Dropping ensures r == q {
      assert r != e.runner ==> PhaseOf(s, r) == Dropping;
      assert q != e.runner ==> PhaseOf(s, q) == Dropping;
    }
  }

  /** Taking over locks of crashed runs, one taker at a time, is safe: every such run is clean, and so
      at most one run is inside. */
  lemma {:induction false} SoleTakersAreExclusive(events: seq<Event>)
    requires JustifiedRun(events)
    ensures CleanRun(events) && OneTaker(Run(events)) && Alone(Run(events)) && OneInside(Run(events))
  {
    hide Step, Clean, Justified, OneTaker;
    if events == [] {
      assert OneTaker(FREE) by { NobodyTakesFree(); }
    } else {
      var n := |events| - 1;
      forall i | 0 <= i < n ensures Justified(Run(events[..n][..i]), events[..n][i]) {
        assert events[..n][..i] == events[..i];
      }
      SoleTakersAreExclusive(events[..n]);
      StepKeepsOneTaker(Run(events[..n]), events[n]);
      forall i | 0 <= i < |events| ensures Clean(Run(events[..i]), events[i]) {
        if i < n { assert events[..n][..i] == events[..i] && Clean(Run(events[..n][..i]), events[..n][i]); }
      }
    }
    CleanRunsAreExclusive(events);
  }

  lemma NobodyTakesFree()
    ensures OneTaker(FREE)
  {
  }

  /** And it works: the only taker of a lock that nobody holds gets in. */
  lemma SoleTakerGetsIn(events: seq<Event>, r: Runner)
    requires JustifiedRun(events)
    requires var s := Run(events);
      s.table && NobodyHolds(s) && PhaseOf(s, r) == Outside && forall q :: PhaseOf(s, q) != Dropping
    ensures var all := events + [Create(r), Look(r, true), Drop(r), Create(r), Name(r, true)];
      && CleanRun(all) && PhaseOf(Run(all), r) == Inside
      && forall q :: q != r ==> PhaseOf(Run(all), q) == PhaseOf(Run(events), q)
  {
    var a := events + [Create(r)];
    var b := a + [Look(r, true)];
    var c := b + [Drop(r)];
    var d := c + [Create(r)];
    var e := d + [Name(r, true)];
    hide Run, OneTaker, Alone;
    assert e == events + [Create(r), Look(r, true), Drop(r), Create(r), Name(r, true)];
    RunNext(events, Create(r)); RunNext(a, Look(r, true)); RunNext(b, Drop(r)); RunNext(c, Create(r)); RunNext(d, Name(r, true));
    StepMovesOne(Run(events), Create(r)); StepMovesOne(Run(a), Look(r, true)); StepMovesOne(Run(b), Drop(r));
    StepMovesOne(Run(c), Create(r)); StepMovesOne(Run(d), Name(r, true));
    JustifiedNext(events, Create(r)); JustifiedNext(a, Look(r, true)); JustifiedNext(b, Drop(r));
    JustifiedNext(c, Create(r)); JustifiedNext(d, Name(r, true));
    SoleTakersAreExclusive(e);
  }

  lemma JustifiedNext(events: seq<Event>, e: Event)
    requires JustifiedRun(events) && Justified(Run(events), e)
    ensures JustifiedRun(events + [e])
  {
    hide Justified, Run;
    var all := events + [e];
    forall i | 0 <= i < |all| ensures Justified(Run(all[..i]), all[i]) {
      assert all[..i] == events[..i];
      if i == |events| { assert events[..i] == events; }
    }
  }

  /** Without any lock found stale at most one run is inside. */
  lemma AtMostOneInside(events: seq<Event>, r: Runner, q: Runner)
    requires forall i :: 0 <= i < |events| ==> !TakesOver(events[i])
    ensures Alone(Run(events))
    ensures PhaseOf(Run(events), r) == Inside && PhaseOf(Run(events), q) == Inside ==> r == q
  {
    SoleTakersAreExclusive(events);
  }

  // ----- Runs that are not exclusive -----

  /** Taking over the lock of a run that is merely slow lets two runs in. */
  lemma SlowHolderIsJoined()
    ensures exists events :: PhaseOf(Run(events), 1) == Inside && PhaseOf(Run(events), 2) == Inside
  {
    var a := [Create(1)];
    var b := a + [Name(1, true)];
    var c := b + [Create(2)];
    var d := c + [Look(2, true)];
    var e := d + [Drop(2)];
    var f := e + [Create(2)];
    var g := f + [Name(2, true)];
    RunNext([], Create(1)); RunNext(a, Name(1, true)); RunNext(b, Create(2)); RunNext(c, Look(2, true));
    RunNext(d, Drop(2)); RunNext(e, Create(2)); RunNext(f, Name(2, true));
    assert [] + [Create(1)] == a;
    assert PhaseOf(Run(g), 1) == Inside && PhaseOf(Run(g), 2) == Inside;
  }

  /** Even when the lock is stale because its run crashed, two runs that both find it stale can get in. */
  lemma TwoTakersJoin()
    ensures exists events :: Crash(0) in events && PhaseOf(Run(events), 1) == Inside && PhaseOf(Run(events), 2) == Inside
  {
    var events := BothFindItStale();
    var all := BothGetIn(events);
  }

  lemma BothFindItStale() returns (f: seq<Event>)
    ensures Crash(0) in f && PhaseOf(Run(f), 1) == Dropping && PhaseOf(Run(f), 2) == Dropping
  {
    var a := [Create(0)];
    var b := a + [Crash(0)];
    var c := b + [Create(1)];
    var d := c + [Create(2)];
    var e := d + [Look(1, true)];
    f := e + [Look(2, true)];
    RunNext([], Create(0)); RunNext(a, Crash(0)); RunNext(b, Create(1)); RunNext(c, Create(2));
    RunNext(d, Look(1, true)); RunNext(e, Look(2, true));
    assert [] + [Create(0)] == a;
    assert f[1] == Crash(0);
  }

  lemma BothGetIn(f: seq<Event>) returns (l: seq<Event>)
    requires PhaseOf(Run(f), 1) == Dropping && PhaseOf(Run(f), 2) == Dropping
    ensures f <= l && PhaseOf(Run(l), 1) == Inside && PhaseOf(Run(l), 2) == Inside
    ensures forall e :: e in f ==> e in l
  {
    hide Run;
    var g := f + [Drop(1)];
    var h := g + [Create(1)];
    var i := h + [Name(1, true)];
    var j := i + [Drop(2)];
    var k := j + [Create(2)];
    l := k + [Name(2, true)];
    RunNext(f, Drop(1)); RunNext(g, Create(1)); RunNext(h, Name(1, true));
    RunNext(i, Drop(2)); RunNext(j, Create(2)); RunNext(k, Name(2, true));
  }
}
