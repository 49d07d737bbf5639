/** The post entity and the vocabulary used to talk about a collection of posts. */
module Posts {

  datatype Option<+T> = None | Some(value: T)

  /** A blog post as the REST resource returns it; `id` is assigned by the server. */
  datatype Post = Post(id: int, userId: int, title: string, body: string)

  /** The ids of a collection, position by position. */
  function Ids(s: seq<Post>): (r: seq<int>)
    ensures |r| == |s|
    ensures forall i :: 0 <= i < |s| ==> r[i] == s[i].id
  {
    if s == [] then [] else [s[0].id] + Ids(s[1..])
  }

  /** Some entry of `s` carries `id`. */
  predicate HasId(s: seq<Post>, id: int) {
    exists i :: 0 <= i < |s| && s[i].id == id
  }

  /** No two entries of `s` share an id: the intended invariant of the cached collection. */
  predicate IdUnique(s: seq<Post>) {
    forall i, j :: 0 <= i < j < |s| ==> s[i].id != s[j].id
  }

  /** The number of entries of `s` that carry `id`. */
  function CountId(s: seq<Post>, id: int): (n: nat)
    ensures n <= |s|
    ensures n == 0 <==> !HasId(s, id)
  {
    if s == [] then 0
    else (if s[0].id == id then 1 else 0) + CountId(s[1..], id)
  }

  /** `xs` is `ys` with some entries dropped and the rest kept in their order. */
  predicate IsSubsequence(xs: seq<Post>, ys: seq<Post>)
    decreases |ys|
  {
    if xs == [] then true
    else if ys == [] then false
    else if xs[0] == ys[0] then IsSubsequence(xs[1..], ys[1..])
    else IsSubsequence(xs, ys[1..])
  }

  /** In an id-unique collection an id that occurs occurs exactly once. */
  lemma {:induction false} CountUniqueIsOne(s: seq<Post>, id: int)
    requires IdUnique(s) && HasId(s, id)
    ensures CountId(s, id) == 1
  {
    if s[0].id == id {
      assert !HasId(s[1..], id);
    } else {
      var k :| 0 <= k < |s| && s[k].id == id;
      assert s[1..][k - 1].id == id;
      CountUniqueIsOne(s[1..], id);
    }
  }

  /** A subsequence of an id-unique collection is id-unique. */
  lemma {:induction false} SubsequenceKeepsUnique(xs: seq<Post>, ys: seq<Post>)
    requires IsSubsequence(xs, ys) && IdUnique(ys)
    ensures IdUnique(xs)
    ensures forall p :: p in xs ==> p in ys
    decreases |ys|
  {
    if xs != [] {
      if xs[0] == ys[0] {
        SubsequenceKeepsUnique(xs[1..], ys[1..]);
        forall j | 0 < j < |xs|
          ensures xs[0].id != xs[j].id
        {
          assert xs[j] == xs[1..][j - 1];
          assert xs[j] in ys[1..];
          var k :| 0 <= k < |ys[1..]| && ys[1..][k] == xs[j];
          assert ys[k + 1] == xs[j];
        }
        forall p | p in xs
          ensures p in ys
        {
          if p != xs[0] {
            var j :| 0 <= j < |xs| && xs[j] == p;
            assert xs[1..][j - 1] == p;
            assert p in ys[1..];
          }
        }
      } else {
        SubsequenceKeepsUnique(xs, ys[1..]);
      }
    }
  }
}
