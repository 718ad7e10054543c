/**
 The surface pool of the DXVA2 decoder: a fixed set of surfaces, each handed out with a
 wrapper that gives it back later, possibly after the decoder has been destroyed and
 replaced.  Among free surfaces the one handed out longest ago is preferred.
 */
module SurfacePool {
  import opened Common

  /** A Direct3D surface, known by its address. */
  datatype Surface = Surface(address: nat)

  /** What a frame holds on to; `id` tells wrappers apart. */
  datatype Wrapper = Wrapper(id: nat, surface: Surface)

  datatype Info = Info(used: bool, age: nat)

  /** DXVA2Context: surfaces, their infos, and the issue counter. */
  datatype Pool = Pool(surfaces: seq<Surface>, infos: seq<Info>, age: nat)

  const NONE := Pool([], [], 0)

  /** dxva2_create_decoder as far as the pool goes. */
  function Create(surfaces: seq<Surface>): Pool { Pool(surfaces, seq(|surfaces|, _ => Info(false, 0)), 0) }

  /** The scan of dxva2_get_buffer over the first n surfaces. */
  function Scan(infos: seq<Info>, n: nat): Option<nat>
    requires n <= |infos|
  {
    if n == 0 then None
    else
      var best := Scan(infos, n - 1);
      var older := best.None? || (best.value < |infos| && infos[n - 1].age < infos[best.value].age);
      if !infos[n - 1].used && older then Some(n - 1) else best
  }

  /** A free surface with the smallest age, the first of them; none only when all are used. */
  lemma {:induction false} ScanFindsOldestFree(infos: seq<Info>, n: nat)
    requires n <= |infos|
    ensures var r := Scan(infos, n);
      if r.None? then forall i :: 0 <= i < n ==> infos[i].used
      else
        && r.value < n && !infos[r.value].used
        && (forall i :: 0 <= i < n && !infos[i].used ==>
              infos[r.value].age <= infos[i].age && (infos[r.value].age == infos[i].age ==> r.value <= i))
  {
    if n > 0 {
      ScanFindsOldestFree(infos, n - 1);
    }
  }

  function Index(surfaces: seq<Surface>, s: Surface): Option<nat> {
    if surfaces == [] then None
    else if surfaces[0] == s then Some(0)
    else
      var r := Index(surfaces[1..], s);
      if r.None? then None else Some(r.value + 1)
  }

  lemma {:induction false} IndexFinds(surfaces: seq<Surface>, s: Surface)
    ensures var r := Index(surfaces, s);
      if r.None? then s !in surfaces
      else r.value < |surfaces| && surfaces[r.value] == s && forall i :: 0 <= i < r.value ==> surfaces[i] != s
  {
    if surfaces != [] {
      IndexFinds(surfaces[1..], s);
    }
  }

  function Issue(p: Pool, i: nat): Pool
    requires i < |p.infos|
  {
    p.(infos := p.infos[i := Info(true, p.age)], age := p.age + 1)
  }

  function GiveBack(p: Pool, s: Surface): Pool {
    var i := Index(p.surfaces, s);
    if i.Some? && i.value < |p.infos| then p.(infos := p.infos[i.value := p.infos[i.value].(used := false)]) else p
  }

  // ------------------------------------------------------------------------------ the run

  /** The pool, the wrappers alive, the next wrapper name, and which surface each issue of this pool took. */
  datatype Sys = Sys(pool: Pool, live: set<Wrapper>, nextId: nat, log: seq<nat>)

  datatype Action = Get | Release(w: Wrapper) | Destroy | Renew(surfaces: seq<Surface>)

  ghost predicate Distinct(s: seq<Surface>) { forall i, j :: 0 <= i < j < |s| ==> s[i] != s[j] }

  /** A new decoder gets distinct surfaces that nobody holds any more: a held surface is not freed. */
  ghost predicate Enabled(s: Sys, a: Action) {
    match a
    case Get => true
    case Release(w) => w in s.live
    case Destroy => true
    case Renew(surfaces) => s.pool == NONE && Distinct(surfaces) && forall w :: w in s.live ==> w.surface !in surfaces
  }

  function Apply(s: Sys, a: Action): Sys {
    match a
    case Get =>
      var i := Scan(s.pool.infos, |s.pool.infos|);
      if i.None? || i.value >= |s.pool.infos| || i.value >= |s.pool.surfaces| then s
      else
        var w := Wrapper(s.nextId, s.pool.surfaces[i.value]);
        Sys(Issue(s.pool, i.value), s.live + {w}, s.nextId + 1, s.log + [i.value])
    case Release(w) => s.(pool := GiveBack(s.pool, w.surface), live := s.live - {w})
    case Destroy => s.(pool := NONE, log := [])
    case Renew(surfaces) => s.(pool := Create(surfaces), log := [])
  }

  const START := Sys(NONE, {}, 0, [])

  function Issued(log: seq<nat>, i: nat): bool { i in log }

  /** When surface i was last issued. */
  function LastIssue(log: seq<nat>, i: nat): (t: nat)
    requires Issued(log, i)
    ensures t < |log| && log[t] == i && forall u :: t < u < |log| ==> log[u] != i
  {
    var n := |log| - 1;
    if log[n] == i then n else LastIssue(log[..n], i)
  }

  ghost predicate Holds(s: Sys, w: Wrapper, i: nat)
    requires i < |s.pool.surfaces|
  {
    w in s.live && w.surface == s.pool.surfaces[i]
  }

  ghost predicate AgeOk(s: Sys, i: nat)
    requires i < |s.pool.infos|
  {
    s.pool.infos[i].age == if Issued(s.log, i) then LastIssue(s.log, i) else 0
  }

  ghost predicate Inv(s: Sys) {
    var p := s.pool;
    && |p.infos| == |p.surfaces| && Distinct(p.surfaces)
    && p.age == |s.log|
    && (forall w :: w in s.live ==> w.id < s.nextId)
    // one wrapper per surface, whichever pool it came from
    && (forall v, w :: v in s.live && w in s.live && v.surface == w.surface ==> v == w)
    && (forall i: nat :: i < |p.infos| ==> (p.infos[i].used <==> exists w :: Holds(s, w, i)))
    && (forall i: nat :: i < |p.infos| ==> AgeOk(s, i))
  }

  lemma {:induction false} IssuedAppend(log: seq<nat>, k: nat, i: nat)
    ensures Issued(log + [k], i) <==> i == k || Issued(log, i)
    ensures Issued(log + [k], i) ==> LastIssue(log + [k], i) == if i == k then |log| else LastIssue(log, i)
  {
    assert (log + [k])[..|log|] == log;
  }

  lemma {:induction false} GetKeepsInv(s: Sys)
    requires Inv(s)
    ensures Inv(Apply(s, Get))
  {
    var p := s.pool;
    ScanFindsOldestFree(p.infos, |p.infos|);
    var r := Scan(p.infos, |p.infos|);
    if r.Some? {
      var k := r.value;
      var t := Apply(s, Get);
      var w0 := Wrapper(s.nextId, p.surfaces[k]);
      forall w | w in s.live ensures w.surface != w0.surface {
        if w.surface == w0.surface {
          assert Holds(s, w, k);
          assert false;
        }
      }
      forall i: nat | i < |t.pool.infos|
        ensures AgeOk(t, i) && (t.pool.infos[i].used <==> exists w :: Holds(t, w, i))
      {
        IssuedAppend(s.log, k, i);
        assert AgeOk(s, i);
        if i == k {
          assert Holds(t, w0, i);
        } else {
          if p.infos[i].used {
            var w :| Holds(s, w, i);
            assert Holds(t, w, i);
          }
          if w :| Holds(t, w, i) {
            assert Holds(s, w, i);
          }
        }
      }
    }
  }

  lemma {:induction false} ReleaseKeepsInv(s: Sys, w0: Wrapper)
    requires Inv(s) && w0 in s.live
    ensures Inv(Apply(s, Release(w0)))
  {
    var p := s.pool;
    IndexFinds(p.surfaces, w0.surface);
    var t := Apply(s, Release(w0));
    forall i: nat | i < |t.pool.infos|
      ensures AgeOk(t, i) && (t.pool.infos[i].used <==> exists w :: Holds(t, w, i))
    {
      assert AgeOk(s, i);
      if p.surfaces[i] != w0.surface {
        if p.infos[i].used {
          var w :| Holds(s, w, i);
          assert Holds(t, w, i);
        }
        if w :| Holds(t, w, i) {
          assert Holds(s, w, i);
        }
      }
    }
  }

  lemma {:induction false} RenewKeepsInv(s: Sys, surfaces: seq<Surface>)
    requires Inv(s) && Enabled(s, Renew(surfaces))
    ensures Inv(Apply(s, Renew(surfaces))) && Inv(Apply(s, Destroy))
  {
  }

  lemma {:induction false} StepKeepsInv(s: Sys, a: Action)
    requires Inv(s) && Enabled(s, a)
    ensures Inv(Apply(s, a))
  {
    match a
    case Get => GetKeepsInv(s);
    case Release(w) => ReleaseKeepsInv(s, w);
    case Renew(surfaces) => RenewKeepsInv(s, surfaces);
    case Destroy =>
  }

  ghost predicate Runs(s: Sys, acts: seq<Action>)
    decreases |acts|
  {
    acts != [] ==> Enabled(s, acts[0]) && Runs(Apply(s, acts[0]), acts[1..])
  }

  function After(s: Sys, acts: seq<Action>): Sys
    decreases |acts|
  {
    if acts == [] then s else After(Apply(s, acts[0]), acts[1..])
  }

  lemma {:induction false} RunKeepsInv(s: Sys, acts: seq<Action>)
    requires Inv(s) && Runs(s, acts)
    ensures Inv(After(s, acts))
    decreases |acts|
  {
    if acts != [] {
      StepKeepsInv(s, acts[0]);
      RunKeepsInv(Apply(s, acts[0]), acts[1..]);
    }
  }

  /** In every run a surface is marked used exactly when one live wrapper holds it, and by one only. */
  lemma {:induction false} UsedExactlyWhenHeld(acts: seq<Action>, i: nat)
    requires Runs(START, acts) && i < |After(START, acts).pool.infos|
    ensures var s := After(START, acts);
      && |s.pool.surfaces| == |s.pool.infos|
      && (s.pool.infos[i].used <==> exists w :: Holds(s, w, i))
      && (forall v, w :: Holds(s, v, i) && Holds(s, w, i) ==> v == w)
  {
    RunKeepsInv(START, acts);
  }

  /** A request fails exactly when every surface of the pool is held. */
  lemma {:induction false} ExhaustedExactly(acts: seq<Action>)
    requires Runs(START, acts)
    ensures var s := After(START, acts);
      Apply(s, Get) == s <==> forall i: nat :: i < |s.pool.infos| ==> s.pool.infos[i].used
  {
    RunKeepsInv(START, acts);
    var s := After(START, acts);
    ScanFindsOldestFree(s.pool.infos, |s.pool.infos|);
    if Scan(s.pool.infos, |s.pool.infos|).Some? {
      assert Apply(s, Get).nextId == s.nextId + 1;
    }
  }

  /**
   Least recently issued first: a surface is not issued again while a free one that was
   issued earlier waits.
   */
  lemma {:induction false} OldestIssueFirst(acts: seq<Action>, j: nat)
    requires Runs(START, acts)
    requires var s := After(START, acts);
      Apply(s, Get) != s && j < |s.pool.infos| && !s.pool.infos[j].used && Issued(s.log, j)
    ensures var s := After(START, acts); var t := Apply(s, Get);
      && t.log == s.log + [t.log[|s.log|]]
      && var i := t.log[|s.log|]; i != j && Issued(s.log, i) ==> LastIssue(s.log, i) < LastIssue(s.log, j)
  {
    RunKeepsInv(START, acts);
    var s := After(START, acts);
    ScanFindsOldestFree(s.pool.infos, |s.pool.infos|);
    var r := Scan(s.pool.infos, |s.pool.infos|);
    assert AgeOk(s, j) && AgeOk(s, r.value);
  }

  ghost predicate FreeNeverIssued(s: Sys, j: nat) {
    j < |s.pool.infos| && !s.pool.infos[j].used && !Issued(s.log, j)
  }

  /**
   The surface of the very first issue looks never issued, since its age is 0: it is free
   again, was not issued since, and lies below all free surfaces that were never issued.
   */
  ghost predicate FirstLooksUnissued(s: Sys) {
    && s.log != [] && s.log[0] < |s.pool.infos| && !s.pool.infos[s.log[0]].used
    && LastIssue(s.log, s.log[0]) == 0
    && forall j :: FreeNeverIssued(s, j) ==> s.log[0] < j
  }

  /** Free surfaces never issued are passed over for one issued before exactly when the first one looks unissued. */
  lemma {:induction false} NeverIssuedComesFirstUnless(acts: seq<Action>, j: nat)
    requires Runs(START, acts) && FreeNeverIssued(After(START, acts), j)
    ensures var s := After(START, acts); var t := Apply(s, Get);
      && |t.log| == |s.log| + 1 && s.log <= t.log
      && (Issued(s.log, t.log[|s.log|]) <==> FirstLooksUnissued(s))
  {
    RunKeepsInv(START, acts);
    var s := After(START, acts);
    ScanFindsOldestFree(s.pool.infos, |s.pool.infos|);
    var i := Scan(s.pool.infos, |s.pool.infos|).value;
    assert AgeOk(s, j) && AgeOk(s, i);
    if Issued(s.log, i) {
      assert LastIssue(s.log, i) == 0;
      assert s.log[0] == i;
      forall k | FreeNeverIssued(s, k) ensures i < k {
        assert AgeOk(s, k);
      }
    } else if FirstLooksUnissued(s) {
      assert AgeOk(s, s.log[0]) && FreeNeverIssued(s, i);
    }
  }

  /**
   Destroying the decoder leaves nothing to issue but takes no wrapper away, and a new decoder
   may follow on any surfaces that no wrapper holds.
   */
  lemma {:induction false} DestroyMakesRoom(acts: seq<Action>, surfaces: seq<Surface>)
    requires Runs(START, acts)
    ensures var s := After(START, acts); var t := Apply(s, Destroy);
      && Enabled(s, Destroy) && t.live == s.live && Apply(t, Get) == t
      && (Enabled(t, Renew(surfaces)) <==>
            Distinct(surfaces) && forall w :: w in s.live ==> w.surface !in surfaces)
      && Apply(t, Renew(surfaces)).pool.surfaces == surfaces && Apply(t, Renew(surfaces)).live == s.live
  {
  }

  /** The exception does happen: two surfaces, one get, its release, and the next get takes the same surface. */
  lemma {:induction false} FirstSurfaceReissued(a: Surface, b: Surface)
    requires a != b
    ensures var s := Apply(START, Renew([a, b]));
      var t := Apply(Apply(s, Get), Release(Wrapper(0, a)));
      Runs(START, [Renew([a, b]), Get, Release(Wrapper(0, a))]) && t.log == [0] && Apply(t, Get).log == [0, 0]
  {
    var s := Apply(START, Renew([a, b]));
    assert s.pool.infos == [Info(false, 0), Info(false, 0)];
    assert Scan(s.pool.infos, 0) == None && Scan(s.pool.infos, 1) == Some(0) && Scan(s.pool.infos, 2) == Some(0);
    var g := Apply(s, Get);
    var t := Apply(g, Release(Wrapper(0, a)));
    assert t.pool.infos == [Info(false, 0), Info(false, 0)];
    assert Scan(t.pool.infos, 0) == None && Scan(t.pool.infos, 1) == Some(0) && Scan(t.pool.infos, 2) == Some(0);
    assert Runs(t, []);
    assert [Release(Wrapper(0, a))][1..] == [];
    assert Runs(g, [Release(Wrapper(0, a))]);
    assert [Get, Release(Wrapper(0, a))][1..] == [Release(Wrapper(0, a))];
    assert Runs(s, [Get, Release(Wrapper(0, a))]);
    assert [Renew([a, b]), Get, Release(Wrapper(0, a))][1..] == [Get, Release(Wrapper(0, a))];
  }

  // ------------------------------------------------------------------------ DXVA2Context

  function Zip(used: seq<bool>, ages: seq<nat>): (r: seq<Info>)
    requires |used| == |ages|
    ensures |r| == |used|
  {
    seq(|used|, i requires 0 <= i < |used| => Info(used[i], ages[i]))
  }

  class Dxva2Context {
    var surfaces: array<Surface>
    var used: array<bool>
    var ages: array<nat>
    var surfaceAge: nat

    ghost predicate Valid()
      reads this
    {
      surfaces.Length == used.Length == ages.Length
    }

    function Infos(): seq<Info>
      requires Valid()
      reads this, used, ages
    {
      Zip(used[..], ages[..])
    }

    function View(): Pool
      requires Valid()
      reads this, surfaces, used, ages
    {
      Pool(surfaces[..], Infos(), surfaceAge)
    }

    /** A context with a new decoder on the given surfaces. */
    constructor (ss: seq<Surface>)
      ensures Valid() && View() == Create(ss) && fresh(surfaces) && fresh(used) && fresh(ages)
    {
      surfaces := new Surface[|ss|](i requires 0 <= i < |ss| => ss[i]);
      used := new bool[|ss|](_ => false);
      ages := new nat[|ss|](_ => 0);
      surfaceAge := 0;
      new;
      assert surfaces[..] == ss;
      assert Infos() == Create(ss).infos;
    }

    /** dxva2_get_buffer: the index issued, or None for ENOMEM. */
    method GetBuffer() returns (r: Option<nat>)
      requires Valid()
      modifies `surfaceAge, used, ages
      ensures Valid() && r == Scan(old(View()).infos, |old(View()).infos|)
      ensures r.None? ==> View() == old(View())
      ensures r.Some? ==> r.value < used.Length && View() == Issue(old(View()), r.value)
    {
      ghost var infos := Infos();
      var oldUnused: Option<nat> := None;
      for i := 0 to used.Length
        invariant oldUnused == Scan(infos, i)
        invariant oldUnused.Some? ==> oldUnused.value < i
      {
        assert infos[i] == Info(used[i], ages[i]);
        assert oldUnused.Some? ==> infos[oldUnused.value].age == ages[oldUnused.value];
        if !used[i] && (oldUnused.None? || ages[i] < ages[oldUnused.value]) {
          oldUnused := Some(i);
        }
      }
      if oldUnused.Some? {
        var i := oldUnused.value;
        used[i] := true;
        ages[i] := surfaceAge;
        surfaceAge := surfaceAge + 1;
        assert Infos() == infos[i := Info(true, old(surfaceAge))];
      }
      return oldUnused;
    }

    /** dxva2_release_buffer */
    method ReleaseBuffer(s: Surface)
      requires Valid()
      modifies used
      ensures Valid() && View() == GiveBack(old(View()), s)
    {
      ghost var infos := Infos();
      IndexFinds(surfaces[..], s);
      for i := 0 to surfaces.Length
        invariant used[..] == old(used[..])
        invariant forall j :: 0 <= j < i ==> surfaces[j] != s
      {
        if surfaces[i] == s {
          used[i] := false;
          assert Infos() == infos[i := infos[i].(used := false)];
          return;
        }
      }
    }

    /** dxva2_destroy_decoder */
    method DestroyDecoder()
      requires Valid()
      modifies this
      ensures Valid() && View() == NONE
    {
      surfaces := new Surface[0](_ => Surface(0));
      used := new bool[0];
      ages := new nat[0];
      surfaceAge := 0;
    }
  }
}
