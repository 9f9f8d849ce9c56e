/** Bytes, options and flattened sequences, shared by the other modules. */
module Bytes {

  type byte = b: int | 0 <= b < 256

  type Bytes = seq<byte>

  datatype Option<+T> = None | Some(value: T)

  /** The pieces joined in order. */
  function Flatten<T>(pieces: seq<seq<T>>): seq<T>
  {
    if pieces == [] then [] else pieces[0] + Flatten(pieces[1..])
  }

  lemma {:induction false} FlattenAppend<T>(a: seq<seq<T>>, b: seq<seq<T>>)
    ensures Flatten(a + b) == Flatten(a) + Flatten(b)
  {
    if a == [] {
      assert a + b == b;
    } else {
      assert (a + b)[0] == a[0] && (a + b)[1..] == a[1..] + b;
      FlattenAppend(a[1..], b);
    }
  }

  lemma FlattenOne<T>(piece: seq<T>)
    ensures Flatten([piece]) == piece
  {
    assert [piece][1..] == [];
  }

  function Min(a: int, b: int): int
  {
    if a <= b then a else b
  }

  predicate At<T(==)>(s: seq<T>, k: nat, pat: seq<T>)
  {
    k <= |s| && pat <= s[k..]
  }

  /** strstr, and with a single element strchr: where `pat` first occurs. */
  function Find<T(==)>(s: seq<T>, pat: seq<T>): (r: Option<nat>)
    ensures r.Some? ==> At(s, r.value, pat) && forall k: nat | k < r.value :: !At(s, k, pat)
    ensures r.None? ==> forall k: nat :: !At(s, k, pat)
  {
    if pat <= s then
      assert s[0..] == s;
      Some(0)
    else if s == [] then None
    else
      assert forall k: nat | 1 <= k :: At(s, k, pat) == At(s[1..], k - 1, pat) by {
        forall k: nat | 1 <= k <= |s| ensures s[k..] == s[1..][k - 1..] {}
      }
      assert s[0..] == s;
      match Find(s[1..], pat)
      case None => None
      case Some(i) => Some(i + 1)
  }

  /** The first occurrence is the only position with none before it. */
  lemma FindIs<T>(s: seq<T>, pat: seq<T>, i: nat)
    requires At(s, i, pat) && forall k: nat | k < i :: !At(s, k, pat)
    ensures Find(s, pat) == Some(i)
  {
  }

  lemma AtPrefix<T>(a: seq<T>, b: seq<T>, k: nat, pat: seq<T>)
    requires k + |pat| <= |a|
    ensures At(a + b, k, pat) == At(a, k, pat)
  {
    assert (a + b)[k..] == a[k..] + b;
  }

  lemma FindHead<T>(s: seq<T>, pat: seq<T>)
    requires pat != [] && Find(s, pat).Some?
    ensures Find(s, pat).value < |s| && s[Find(s, pat).value] == pat[0]
  {
    var i := Find(s, pat).value;
    assert At(s, i, pat);
    assert s[i..][0] == pat[0];
  }

  /** strchr finds an element when there is one, and stops at the first. */
  lemma FindOne<T>(s: seq<T>, b: T)
    ensures Find(s, [b]).Some? <==> b in s
    ensures Find(s, [b]).Some? ==>
              Find(s, [b]).value < |s| && s[Find(s, [b]).value] == b && b !in s[..Find(s, [b]).value]
  {
    forall k: nat | k < |s| ensures At(s, k, [b]) == (s[k] == b) {
      assert s[k..][0] == s[k];
    }
  }
}
