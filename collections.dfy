/** Flattening sequences: how nested forEach loops that push onto one array line their results up. */
module Collections {
  import opened Wrappers

  /** The present values of rs, in order: pushing each Some and skipping each None. */
  function Somes<T>(rs: seq<Option<T>>): seq<T> {
    if rs == [] then []
    else Somes(rs[..|rs| - 1]) + (if rs[|rs| - 1].Some? then [rs[|rs| - 1].value] else [])
  }

  /** The concatenation of ss, in order. */
  function Flatten<T>(ss: seq<seq<T>>): seq<T> {
    if ss == [] then [] else Flatten(ss[..|ss| - 1]) + ss[|ss| - 1]
  }

  lemma {:induction false} SomesAppend<T>(a: seq<Option<T>>, b: seq<Option<T>>)
    ensures Somes(a + b) == Somes(a) + Somes(b)
    decreases |b|
  {
    if b == [] {
      assert a + b == a;
    } else {
      assert (a + b)[..|a + b| - 1] == a + b[..|b| - 1];
      SomesAppend(a, b[..|b| - 1]);
    }
  }

  lemma {:induction false} FlattenAppend<T>(a: seq<seq<T>>, b: seq<seq<T>>)
    ensures Flatten(a + b) == Flatten(a) + Flatten(b)
    decreases |b|
  {
    if b == [] {
      assert a + b == a;
    } else {
      assert (a + b)[..|a + b| - 1] == a + b[..|b| - 1];
      FlattenAppend(a, b[..|b| - 1]);
    }
  }

  /** x is among the present values exactly when some position holds Some(x). */
  lemma {:induction false} SomesMembership<T>(rs: seq<Option<T>>, x: T)
    ensures x in Somes(rs) <==> exists j :: 0 <= j < |rs| && rs[j] == Some(x)
    decreases |rs|
  {
    if rs != [] {
      var init := rs[..|rs| - 1];
      SomesMembership(init, x);
      if exists j :: 0 <= j < |init| && init[j] == Some(x) {
        var j :| 0 <= j < |init| && init[j] == Some(x);
        assert rs[j] == Some(x);
      }
      if exists j :: 0 <= j < |rs| && rs[j] == Some(x) {
        var j :| 0 <= j < |rs| && rs[j] == Some(x);
        if j < |init| {
          assert init[j] == Some(x);
        }
      }
    }
  }

  /** x is in the concatenation exactly when it is in one of the parts. */
  lemma {:induction false} FlattenMembership<T>(ss: seq<seq<T>>, x: T)
    ensures x in Flatten(ss) <==> exists i :: 0 <= i < |ss| && x in ss[i]
    decreases |ss|
  {
    if ss != [] {
      var init := ss[..|ss| - 1];
      FlattenMembership(init, x);
      if exists i :: 0 <= i < |init| && x in init[i] {
        var i :| 0 <= i < |init| && x in init[i];
        assert ss[i] == init[i];
      }
      if exists i :: 0 <= i < |ss| && x in ss[i] {
        var i :| 0 <= i < |ss| && x in ss[i];
        if i < |init| {
          assert init[i] == ss[i];
        }
      }
    }
  }
}
