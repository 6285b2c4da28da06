/** The two result shapes every component shares, and the arithmetic helpers Go spells math.Min and math.Max. */
module Wrappers {
  datatype Option<+T> = None | Some(value: T)

  datatype Result<+T, +E> = Ok(value: T) | Err(error: E)

  function MinR(a: real, b: real): real { if a <= b then a else b }

  function MaxR(a: real, b: real): real { if a >= b then a else b }

  function AbsR(a: real): real { if a >= 0.0 then a else -a }
}

/** A point of a floor plan. */
module Plane {
  datatype Vec2 = Vec2(x: real, y: real)
}

/** A sequence with one element taken out. */
module Sequences {
  function Without<T>(s: seq<T>, i: nat): (r: seq<T>)
    requires i < |s|
    ensures |r| == |s| - 1 && forall k :: 0 <= k < |r| ==> r[k] == s[if k < i then k else k + 1]
  {
    s[..i] + s[i+1..]
  }

  predicate Distinct<T(==)>(s: seq<T>) { forall i, j :: 0 <= i < j < |s| ==> s[i] != s[j] }

  /** What is left is everything else. */
  lemma WithoutMembers<T>(s: seq<T>, i: nat)
    requires i < |s|
    ensures forall x :: x in s <==> x == s[i] || x in Without(s, i)
    ensures multiset(s) == multiset(Without(s, i)) + multiset{s[i]}
  {
    assert s == s[..i] + [s[i]] + s[i+1..];
  }

  lemma WithoutDistinct<T>(s: seq<T>, i: nat)
    requires Distinct(s) && i < |s|
    ensures Distinct(Without(s, i)) && s[i] !in Without(s, i)
  {}
}

/** The earliest of finitely many instants, each under a name. */
module Instants {
  import opened Wrappers

  predicate IsEarliest(at: map<string, real>, k: string) {
    k in at && forall j :: j in at ==> at[k] <= at[j]
  }

  ghost function Earliest(at: map<string, real>): (r: Option<real>)
    ensures forall k :: k in at ==> r.Some? && r.value <= at[k]
    ensures r.Some? ==> exists k :: k in at && at[k] == r.value
  {
    if k :| k in at then
      SomeEarliest(at, k);
      var e :| IsEarliest(at, e);
      Some(at[e])
    else None
  }

  lemma SomeEarliest(at: map<string, real>, one: string)
    requires one in at
    ensures exists k :: IsEarliest(at, k)
  {
    assert one in at.Keys;
    EarliestExists(at, at.Keys);
    var k :| k in at.Keys && forall j :: j in at.Keys ==> at[k] <= at[j];
    assert IsEarliest(at, k);
  }

  lemma {:induction false} EarliestExists(at: map<string, real>, keys: set<string>)
    requires keys != {} && keys <= at.Keys
    ensures exists k :: k in keys && forall j :: j in keys ==> at[k] <= at[j]
    decreases |keys|
  {
    NonEmptyHasMember(keys);
    var k :| k in keys;
    var rest := keys - {k};
    assert keys == rest + {k};
    if rest != {} {
      EarliestExists(at, rest);
      var e :| e in rest && forall j :: j in rest ==> at[e] <= at[j];
      var first := if at[k] <= at[e] then k else e;
      assert first in keys && forall j :: j in keys ==> at[first] <= at[j];
    } else {
      assert forall j :: j in keys ==> at[k] <= at[j];
    }
  }

  lemma EmptyIfNoMember(s: set<string>)
    requires forall x :: x !in s
    ensures s == {}
  {
    assert s == {};
  }

  lemma NonEmptyHasMember(s: set<string>)
    requires s != {}
    ensures exists x :: x in s
  {
    if forall x :: x !in s { EmptyIfNoMember(s); }
  }

  /** One more name: the earliest either stays or is the newcomer. */
  lemma EarliestGrows(at: map<string, real>, k: string, d: real)
    requires k !in at
    ensures Earliest(at[k := d]) ==
            var was := Earliest(at); if was.None? || d < was.value then Some(d) else was
  {
    var was, now := Earliest(at), at[k := d];
    assert k in now && now[k] == d;
    var i :| i in now && now[i] == Earliest(now).value;
    if was.Some? {
      var j :| j in at && at[j] == was.value;
      assert j in now;
    }
  }

  /** Instants that only come later cannot displace the earliest. */
  lemma EarliestStays(early: map<string, real>, late: map<string, real>, t: real)
    requires Earliest(early).Some? && forall k :: k in early ==> k in late && late[k] == early[k] && early[k] <= t
    requires forall k :: k in late && k !in early ==> late[k] > t
    ensures Earliest(late) == Earliest(early)
  {
    var i :| i in early && early[i] == Earliest(early).value;
    assert i in late;
    var j :| j in late && late[j] == Earliest(late).value;
  }
}

/** The pseudo-random source: an arbitrary infinite stream of fractions, consumed in order. */
module Draws {
  /** A stream of draws, each a fraction of one. */
  type Stream = u: nat -> real | forall i: nat :: 0.0 <= u(i) < 1.0 ghost witness (i: nat) => 0.0

  /** A fraction of a span. */
  function Part(f: real, span: real): real { f * span }

  function Intn(u: Stream, i: nat, n: nat): (r: nat)
    requires n > 0
    ensures r < n
  {
    FractionOf(u(i), n as real);
    Part(u(i), n as real).Floor
  }

  lemma FractionOf(f: real, n: real)
    requires 0.0 <= f < 1.0 && n > 0.0
    ensures 0.0 <= Part(f, n) < n
  {
    assert (1.0 - f) * n > 0.0;
    assert (1.0 - f) * n == n - f * n;
  }
}
