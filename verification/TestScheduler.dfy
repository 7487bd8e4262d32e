// The dispatch of test cases to machines: generic test cases run in threads, one
// per machine, beside each other; softmodem test cases run alone.
module TestScheduler {

  // ----- Lists of machine names -----

  ghost predicate Distinct(xs: seq<string>) {
    forall i, j :: 0 <= i < j < |xs| ==> xs[i] != xs[j]
  }

  // list.remove(x), for a list that may lack x.
  function RemoveFirst(xs: seq<string>, x: string): (r: seq<string>)
    ensures forall y :: y in r ==> y in xs
    ensures forall y :: y in xs && y != x ==> y in r
  {
    if xs == [] then [] else if xs[0] == x then xs[1..] else [xs[0]] + RemoveFirst(xs[1..], x)
  }

  function Without(xs: seq<string>, busy: seq<string>): (r: seq<string>)
    ensures forall y :: y in r ==> y in xs
    ensures forall y :: y in xs && y !in busy ==> y in r
  {
    if busy == [] then xs else RemoveFirst(Without(xs, busy[..|busy|-1]), busy[|busy|-1])
  }

  function Times(xs: seq<string>, x: string): nat {
    if xs == [] then 0 else (if xs[0] == x then 1 else 0) + Times(xs[1..], x)
  }

  lemma {:induction false} TimesIn(xs: seq<string>, x: string)
    ensures x in xs <==> Times(xs, x) > 0
  {
    if xs != [] {
      assert xs == [xs[0]] + xs[1..];
      TimesIn(xs[1..], x);
    }
  }

  lemma {:induction false} RemoveFirstTimes(xs: seq<string>, x: string, y: string)
    ensures Times(RemoveFirst(xs, x), y) == Times(xs, y) - if x == y && x in xs then 1 else 0
  {
    TimesIn(xs, x);
    if xs != [] && xs[0] != x {
      RemoveFirstTimes(xs[1..], x, y);
      TimesIn(xs[1..], x);
      var r := [xs[0]] + RemoveFirst(xs[1..], x);
      assert r[1..] == RemoveFirst(xs[1..], x);
    }
  }

  // Each busy name is taken off once, so a name listed k times stays k-1 times.
  lemma {:induction false} WithoutTimes(xs: seq<string>, busy: seq<string>, y: string)
    requires Distinct(busy)
    ensures Times(Without(xs, busy), y) == Times(xs, y) - if y in busy && y in xs then 1 else 0
  {
    TimesIn(xs, y);
    if busy != [] {
      var init, last := busy[..|busy|-1], busy[|busy|-1];
      assert busy == init + [last];
      WithoutTimes(xs, init, y);
      WithoutTimes(xs, init, last);
      RemoveFirstTimes(Without(xs, init), last, y);
      TimesIn(Without(xs, init), last);
      TimesIn(xs, last);
    }
  }

  // No busy machine is offered as free, exactly when no busy machine is listed twice.
  lemma FreeIsNotBusyIff(xs: seq<string>, busy: seq<string>)
    requires Distinct(busy)
    ensures (forall m :: m in busy ==> m !in Without(xs, busy)) <==> (forall m :: m in busy ==> Times(xs, m) <= 1)
  {
    forall m | m in busy
      ensures m !in Without(xs, busy) <==> Times(xs, m) <= 1
    {
      WithoutTimes(xs, busy, m);
      TimesIn(xs, m);
      TimesIn(Without(xs, busy), m);
    }
  }

  // The names of xs that are not busy, in order.
  function Unused(xs: seq<string>, busy: seq<string>): seq<string> {
    if xs == [] then [] else (if xs[0] in busy then [] else [xs[0]]) + Unused(xs[1..], busy)
  }

  lemma {:induction false} UnusedBut(xs: seq<string>, busy: seq<string>, x: string)
    requires Distinct(xs)
    ensures Unused(xs, busy + [x]) == RemoveFirst(Unused(xs, busy), x)
  {
    if xs != [] {
      UnusedBut(xs[1..], busy, x);
      var rest := Unused(xs[1..], busy);
      assert ([xs[0]] + rest)[1..] == rest && [] + rest == rest;
      if xs[0] == x {
        UnusedIn(xs[1..], busy, x);
        RemoveMissing(Unused(xs[1..], busy), x);
      }
    }
  }

  lemma {:induction false} UnusedIn(xs: seq<string>, busy: seq<string>, x: string)
    ensures x in Unused(xs, busy) ==> x in xs
  {
    if xs != [] {
      UnusedIn(xs[1..], busy, x);
    }
  }

  lemma {:induction false} UnusedOfNone(xs: seq<string>)
    ensures Unused(xs, []) == xs
  {
    if xs != [] {
      UnusedOfNone(xs[1..]);
    }
  }

  // Of distinct machines the free ones keep their order.
  lemma {:induction false} FreeInOrder(xs: seq<string>, busy: seq<string>)
    requires Distinct(xs)
    ensures Without(xs, busy) == Unused(xs, busy)
  {
    if busy == [] {
      UnusedOfNone(xs);
    } else {
      var init, last := busy[..|busy|-1], busy[|busy|-1];
      FreeInOrder(xs, init);
      UnusedBut(xs, init, last);
      assert busy == init + [last];
    }
  }

  lemma {:induction false} FirstUnused(xs: seq<string>, busy: seq<string>) returns (k: nat)
    requires Unused(xs, busy) != []
    ensures k < |xs| && xs[k] == Unused(xs, busy)[0] && forall j :: 0 <= j < k ==> xs[j] in busy
  {
    if xs[0] in busy {
      k := FirstUnused(xs[1..], busy);
      k := k + 1;
    } else {
      k := 0;
    }
  }

  lemma {:induction false} DistinctOnce(xs: seq<string>, m: string)
    requires Distinct(xs)
    ensures Times(xs, m) <= 1
  {
    if xs != [] {
      DistinctOnce(xs[1..], m);
      TimesIn(xs[1..], m);
    }
  }

  // ----- The dispatcher -----

  datatype Option<T> = None | Some(value: T)

  // An entry of the thread list.
  datatype Param = Param(thread: nat, machine: string)

  // What is observable of a run: generic threads started, and softmodem tests with
  // the time they end.
  datatype Event = Start(thread: nat, machine: string, time: nat) | Softmodem(time: nat, end: nat)

  // A machine's threads never overlap, and nothing overlaps a softmodem test: it
  // begins when no generic thread is alive, and what follows it begins when it
  // has ended; finish(t) is the time thread t ends.
  ghost predicate Safe(history: seq<Event>, finish: nat -> nat) {
    forall i, j :: 0 <= i < j < |history| ==> Apart(history[i], history[j], finish)
  }

  ghost predicate Apart(e: Event, later: Event, finish: nat -> nat) {
    match e
    case Start(thread, machine, _) =>
      later.Softmodem? || later.machine == machine ==> finish(thread) <= later.time
    case Softmodem(_, end) => end <= later.time
  }

  datatype Handled = Started(machine: string) | Raised | Polling

  datatype Case =
    | Generic(startFails: bool, patience: nat)   // class compilation or execution
    | SoftmodemCase(timeout: nat, duration: nat)
    | Unknown
    | Excluded

  class Dispatcher {
    const machines: seq<string>
    const finish: nat -> nat     // when each thread will have ended
    var clock: nat
    var threads: nat             // number of threads started
    var list: Option<seq<Param>> // threadListGlobal; None once a handler has raised
    var history: seq<Event>

    ghost predicate Valid()
      reads this
    {
      && Distinct(machines)
      && Safe(history, finish)
      && (forall e :: e in history && e.Start? ==>
            e.thread < threads && (list.Some? && Alive(e.thread) ==> Param(e.thread, e.machine) in list.value))
      && (forall e :: e in history && e.Softmodem? ==> e.end <= clock)
    }

    predicate Alive(t: nat)
      reads this
    {
      clock < finish(t)
    }

    constructor (machines: seq<string>, finish: nat -> nat)
      requires Distinct(machines)
      ensures Valid() && history == [] && list == Some([]) && this.machines == machines && this.finish == finish
    {
      this.machines, this.finish := machines, finish;
      clock, threads, list, history := 0, 0, Some([]), [];
    }

    // thread.join(timeout): time passes until the thread ends or the time is up.
    method Join(t: nat, timeout: nat)
      modifies `clock
      ensures clock >= old(clock)
      ensures clock == if old(clock) >= finish(t) then old(clock) else if old(clock) + timeout <= finish(t) then old(clock) + timeout else finish(t)
    {
      if clock < finish(t) {
        clock := if clock + timeout <= finish(t) then clock + timeout else finish(t);
      }
    }

    // One look at every thread of the list.
    method Poll(params: seq<Param>) returns (kept: seq<Param>, busy: seq<string>)
      modifies `clock
      ensures clock >= old(clock) && Distinct(busy)
      ensures forall p :: p in kept ==> p in params
      ensures forall p :: p in params ==> p in kept || !Alive(p.thread)
      ensures forall p :: p in kept ==> p.machine in busy && old(clock) < finish(p.thread)
      ensures forall m :: m in busy ==> exists p :: p in params && p.machine == m && old(clock) < finish(p.thread)
    {
      kept, busy := [], [];
      for i := 0 to |params|
        invariant clock >= old(clock) && Distinct(busy)
        invariant forall p :: p in kept ==> p in params
        invariant forall j :: 0 <= j < i ==> params[j] in kept || !Alive(params[j].thread)
        invariant forall p :: p in kept ==> p.machine in busy && old(clock) < finish(p.thread)
        invariant forall m :: m in busy ==> exists p :: p in params && p.machine == m && old(clock) < finish(p.thread)
      {
        var p := params[i];
        Join(p.thread, 1);
        if Alive(p.thread) {
          kept := kept + [p];
          if p.machine !in busy {
            busy := busy + [p.machine];
          }
        }
      }
    }

    method FreeMachines(busy: seq<string>) returns (free: seq<string>)
      ensures free == Without(machines, busy)
    {
      free := machines;
      for i := 0 to |busy|
        invariant free == Without(machines, busy[..i])
      {
        if busy[i] in free {
          free := RemoveFirst(free, busy[i]);
        } else {
          RemoveMissing(free, busy[i]);
        }
        assert busy[..i + 1][..i] == busy[..i];
      }
      assert busy[..|busy|] == busy;
    }

    // handle_testcaseclass_generic. It polls until a machine is free; `patience`
    // bounds how many polls are watched.
    method HandleGeneric(startFails: bool, patience: nat) returns (r: Handled)
      requires Valid()
      modifies this
      ensures Valid() && clock >= old(clock)
      ensures r.Started? ==> history == old(history) + [Start(old(threads), r.machine, clock)] && r.machine in machines
      ensures r.Started? ==>
                && old(list).Some? && list.Some?
                && (forall p :: p in old(list).value ==> p in list.value || !Alive(p.thread))
                && (forall p :: p in list.value ==>
                      p == Param(old(threads), r.machine) || (p in old(list).value && old(clock) < finish(p.thread)))
                && Param(old(threads), r.machine) in list.value
      ensures r.Started? ==>
                exists k :: 0 <= k < |machines| && machines[k] == r.machine &&
                  forall j :: 0 <= j < k ==>
                    exists p :: p in old(list).value && p.machine == machines[j] && old(clock) < finish(p.thread)
      ensures !r.Started? ==> history == old(history)
      ensures r.Raised? <==> list.None?
      ensures r.Polling? ==> list == old(list)
      ensures old(list).None? ==> r.Raised?
      ensures startFails ==> !r.Started?
      ensures r.Raised? && old(list).Some? ==> startFails
      ensures old(list).Some? && patience > 0
              && (exists m :: m in machines && forall p :: p in old(list).value && p.machine == m ==> !old(Alive(p.thread)))
              ==> !r.Polling?
    {
      if list.None? {
        return Raised;
      }
      var params := list.value;
      var kept: seq<Param>, free: seq<string> := [], [];
      ghost var busy: seq<string> := [];
      var polls := 0;
      while |free| == 0
        invariant clock >= old(clock) && history == old(history) && threads == old(threads) && list == old(list)
        invariant Valid()
        invariant polls <= patience
        invariant polls > 0 ==> (forall p :: p in params ==> p in kept || !Alive(p.thread))
        invariant forall p :: p in kept ==> p in params && old(clock) < finish(p.thread)
        invariant forall p :: p in kept ==> p.machine !in free
        invariant forall m :: m in busy ==> exists p :: p in params && p.machine == m && old(clock) < finish(p.thread)
        invariant |free| > 0 ==> free == Without(machines, busy)
        invariant forall m :: m in free ==> m in machines
        invariant polls > 0 && |free| == 0 ==>
                    forall m :: m in machines ==> exists p :: p in params && p.machine == m && old(clock) < finish(p.thread)
        invariant |free| > 0 ==> polls > 0
        decreases if |free| == 0 then 1 + patience - polls else 0
      {
        if polls == patience {
          return Polling;
        }
        polls := polls + 1;
        ghost var before := clock;
        var b;
        kept, b := Poll(params);
        free := FreeMachines(b);
        NoBusyOffered(machines, b);
        busy := b;
      }
      FreeInOrder(machines, busy);
      ghost var first := FirstUnused(machines, busy);
      var machine := free[0];
      if startFails {
        list := None;
        return Raised;
      }
      history := history + [Start(threads, machine, clock)];
      list := Some(kept + [Param(threads, machine)]);
      threads := threads + 1;
      return Started(machine);
    }

    // wait_testcaseclass_generic_threads: false if it ends the program or raises.
    method WaitForGeneric(timeout: nat) returns (ok: bool, exit: bool)
      requires Valid()
      modifies `clock, `list
      ensures Valid() && clock >= old(clock)
      ensures ok ==> list == Some([]) && forall e :: e in history && e.Start? ==> !Alive(e.thread)
      ensures !ok ==> list == old(list)
      ensures exit ==> !ok && old(list).Some?
      ensures exit ==> clock >= old(clock) + timeout && exists p :: p in list.value && Alive(p.thread)
      ensures old(list).Some? && (forall p :: p in old(list).value ==> finish(p.thread) <= old(clock) + timeout) ==> ok
      ensures !ok && !exit ==> old(list).None?
      ensures old(list).None? ==> !ok
    {
      if list.None? {
        return false, false;
      }
      var params := list.value;
      for i := 0 to |params|
        invariant clock >= old(clock) && list == old(list) && Valid()
        invariant forall j :: 0 <= j < i ==> !Alive(params[j].thread)
      {
        Join(params[i].thread, timeout);
        if Alive(params[i].thread) {
          return false, true;
        }
      }
      list := Some([]);
      return true, false;
    }

    // The loop over the test cases. Whatever the cases are and whenever threads
    // end, the history stays safe; each case that is reached adds what it admits,
    // in order, and unless a handler has raised, what it calls for.
    method Dispatch(cases: seq<Case>) returns (effects: seq<Option<Event>>)
      requires Valid()
      modifies this
      ensures Valid() && Safe(history, finish)
      ensures |effects| <= |cases| && history == old(history) + Somes(effects)
      ensures forall i :: 0 <= i < |effects| ==> Admits(cases[i], effects[i]) && !cases[i].Unknown?
      ensures |effects| < |cases| ==>
                exists t: nat :: old(clock) <= t <= clock && StopsAt(cases[|effects|], t)
      ensures list.Some? ==> forall i :: 0 <= i < |effects| ==> Fulfils(cases[i], effects[i])
      ensures forall i, j :: 0 <= i < j < |effects| && FailsToStart(cases[i]) ==> effects[j] == None
      ensures list.None? && old(list).Some? ==>
                exists i :: 0 <= i < |effects| && FailsToStart(cases[i])
      ensures old(list).None? ==> history == old(history)
    {
      effects := [];
      for i := 0 to |cases|
        invariant Valid() && |effects| == i && clock >= old(clock)
        invariant history == old(history) + Somes(effects)
        invariant forall k :: 0 <= k < i ==> Admits(cases[k], effects[k]) && !cases[k].Unknown?
        invariant forall k :: 0 <= k < i && FailsToStart(cases[k]) ==> list.None?
        invariant forall k, j :: 0 <= k < j < i && FailsToStart(cases[k]) ==> effects[j] == None
        invariant list.Some? ==> forall k :: 0 <= k < i ==> Fulfils(cases[k], effects[k])
        invariant list.None? && old(list).Some? ==> exists k :: 0 <= k < i && FailsToStart(cases[k])
        invariant old(list).None? ==> list.None? && history == old(history)
      {
        ghost var t := clock;
        var effect, stop := HandleCase(cases[i]);
        if stop {
          assert StopsAt(cases[i], t);
          return;
        }
        SomesAppend(effects, effect);
        effects := effects + [effect];
      }
    }

    // The program ends or polls on with case c, begun at time t: an unknown class;
    // a generic test for which every machine was busy; a softmodem test that a
    // generic thread has outlasted the timeout of.
    ghost predicate StopsAt(c: Case, t: nat)
      reads this
    {
      match c
      case Generic(_, patience) =>
        && list.Some?
        && (patience > 0 ==> forall m :: m in machines ==>
              exists p :: p in list.value && p.machine == m && t < finish(p.thread))
      case SoftmodemCase(timeout, _) =>
        list.Some? && t + timeout <= clock && exists p :: p in list.value && Alive(p.thread)
      case Unknown => true
      case Excluded => false
    }

    // What the loop does for one case; stop if the program ends or polls on.
    method HandleCase(c: Case) returns (effect: Option<Event>, stop: bool)
      requires Valid()
      modifies this
      ensures Valid() && history == old(history) + Somes([effect])
      ensures clock >= old(clock)
      ensures stop ==> effect == None && StopsAt(c, old(clock))
      ensures stop && old(list).Some? ==> list.Some?
      ensures !stop ==> Admits(c, effect) && !c.Unknown? && (list.Some? ==> Fulfils(c, effect))
      ensures list.None? && old(list).Some? ==> FailsToStart(c)
      ensures !stop && FailsToStart(c) ==> list.None?
      ensures old(list).None? ==> list.None? && effect == None
    {
      effect, stop := None, false;
      match c {
        case Generic(startFails, patience) =>
          var thread := threads;
          var r := HandleGeneric(startFails, patience);
          if r == Polling {
            stop := true;
          } else if r.Started? {
            effect := Some(Start(thread, r.machine, clock));
          }
        case SoftmodemCase(timeout, duration) =>
          var ok, exit := WaitForGeneric(timeout);
          if ok {
            effect := Some(Softmodem(clock, clock + duration));
            history := history + [Softmodem(clock, clock + duration)];
            clock := clock + duration;
          }
          stop := exit;
        case Unknown =>
          stop := true;
        case Excluded =>
      }
    }
  }

  // The events that the cases reached have added to the history.
  function Somes(effects: seq<Option<Event>>): seq<Event> {
    if effects == [] then []
    else
      var rest, last := Somes(effects[..|effects|-1]), effects[|effects|-1];
      if last.Some? then rest + [last.value] else rest
  }

  lemma SomesAppend(effects: seq<Option<Event>>, effect: Option<Event>)
    ensures Somes(effects + [effect]) == Somes(effects) + Somes([effect])
  {
    assert (effects + [effect])[..|effects + [effect]|-1] == effects;
    assert [effect][..0] == [];
  }

  // What a case may add to the history, and what it must add as long as no handler
  // has raised.
  predicate Admits(c: Case, effect: Option<Event>) {
    match c
    case Generic(startFails, _) => effect == None || (effect.value.Start? && !startFails)
    case SoftmodemCase(_, duration) =>
      effect == None || (effect.value.Softmodem? && effect.value.end == effect.value.time + duration)
    case _ => effect == None
  }

  predicate Fulfils(c: Case, effect: Option<Event>) {
    effect.Some? <==> c.Generic? || c.SoftmodemCase?
  }

  predicate FailsToStart(c: Case) {
    c.Generic? && c.startFails
  }

  lemma RemoveMissing(xs: seq<string>, x: string)
    requires x !in xs
    ensures RemoveFirst(xs, x) == xs
  {
    if xs != [] {
      RemoveMissing(xs[1..], x);
    }
  }

  lemma NoBusyOffered(xs: seq<string>, busy: seq<string>)
    requires Distinct(xs) && Distinct(busy)
    ensures forall m :: m in Without(xs, busy) <==> m in xs && m !in busy
  {
    forall m
      ensures m in Without(xs, busy) <==> m in xs && m !in busy
    {
      DistinctOnce(xs, m);
      WithoutTimes(xs, busy, m);
      TimesIn(xs, m);
      TimesIn(Without(xs, busy), m);
    }
  }
}
