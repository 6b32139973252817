/**
 * The widget's two dictionaries as insertion-ordered sequences. `fingers`
 * maps a finger id to the last pixel position recorded for it; `placed`
 * maps the owning finger id to True, and since every value it ever keeps is
 * True it is represented by its keys alone. Python dictionaries iterate in
 * insertion order, assignment to an existing key keeps that key's place, and
 * `pop` of a missing key does nothing: the functions below have exactly
 * those three behaviours.
 */
module Contacts {
  import opened Wrappers
  import opened Geometry

  datatype Finger = Finger(id: int, pos: Point)

  /** The keys of the dictionary, in iteration order. */
  function Ids(fs: seq<Finger>): (ids: seq<int>)
    ensures |ids| == |fs|
    ensures forall i :: 0 <= i < |fs| ==> ids[i] == fs[i].id
  {
    if fs == [] then [] else [fs[0].id] + Ids(fs[1..])
  }

  /** No key occurs twice: the shape every Python dictionary has. */
  predicate DistinctIds(fs: seq<Finger>) {
    forall i, j :: 0 <= i < j < |fs| ==> fs[i].id != fs[j].id
  }

  /** `fingers.get(id)`. */
  function Lookup(fs: seq<Finger>, id: int): (r: Option<Point>)
    ensures r.Some? <==> id in Ids(fs)
    ensures r.Some? ==> Finger(id, r.value) in fs
  {
    if fs == [] then None
    else if fs[0].id == id then Some(fs[0].pos)
    else Lookup(fs[1..], id)
  }

  /** `fingers[id] = p`: the dictionary now maps id to p and nothing else changes;
      an existing key keeps its place in the iteration order, a new key goes last. */
  function Put(fs: seq<Finger>, id: int, p: Point): (r: seq<Finger>)
    ensures forall k :: Lookup(r, k) == if k == id then Some(p) else Lookup(fs, k)
    ensures id in Ids(fs) ==> Ids(r) == Ids(fs)
    ensures id !in Ids(fs) ==> r == fs + [Finger(id, p)]
    ensures DistinctIds(fs) ==> DistinctIds(r)
  {
    if fs == [] then [Finger(id, p)]
    else if fs[0].id == id then [Finger(id, p)] + fs[1..]
    else [fs[0]] + Put(fs[1..], id, p)
  }

  /** `fingers.pop(id, None)`: the key is gone, every other entry stays, in order. */
  function Remove(fs: seq<Finger>, id: int): (r: seq<Finger>)
    ensures forall k :: Lookup(r, k) == if k == id then None else Lookup(fs, k)
    ensures forall f :: f in r <==> f in fs && f.id != id
    ensures id !in Ids(fs) ==> r == fs
    ensures DistinctIds(fs) ==> DistinctIds(r)
  {
    if fs == [] then []
    else
      var rest := Remove(fs[1..], id);
      if fs[0].id == id then rest else [fs[0]] + rest
  }

  /** A key found only at index i > 0 is found only at index i - 1 of the tail. */
  lemma OnlyAtTail(fs: seq<Finger>, id: int, i: nat)
    requires 0 < i < |fs| && fs[i].id == id
    requires forall j :: 0 <= j < |fs| && j != i ==> fs[j].id != id
    ensures fs[0].id != id
    ensures forall j :: 0 <= j < |fs| - 1 && j != i - 1 ==> fs[1..][j].id != id
  {
    assert forall j :: 0 <= j < |fs| - 1 ==> fs[1..][j] == fs[j + 1];
  }

  /** Removing a key the first entry does not carry keeps that entry in front. */
  lemma RemoveSkipsHead(fs: seq<Finger>, id: int)
    requires fs != [] && fs[0].id != id
    ensures Remove(fs, id) == [fs[0]] + Remove(fs[1..], id)
  {
  }

  /** Removing the key that only the first entry carries leaves the rest, in order. */
  lemma RemoveFirstEntry(fs: seq<Finger>, id: int)
    requires fs != [] && fs[0].id == id
    requires forall j :: 0 < j < |fs| ==> fs[j].id != id
    ensures Remove(fs, id) == fs[1..]
  {
    assert id !in Ids(fs[1..]) by {
      assert forall j :: 0 <= j < |fs| - 1 ==> Ids(fs[1..])[j] == fs[j + 1].id;
    }
  }

  /** Cutting out index i > 0 of a sequence is cutting out index i - 1 of its
      tail and putting the head back in front. */
  lemma SpliceHead<T>(s: seq<T>, i: nat, whole: seq<T>, tail: seq<T>)
    requires 0 < i < |s|
    requires tail == s[1..][..i - 1] + s[1..][i..]
    requires whole == [s[0]] + tail
    ensures whole == s[..i] + s[i + 1..]
  {
    assert s[1..][..i - 1] == s[1..i] && s[1..][i..] == s[i + 1..];
    assert s[..i] == [s[0]] + s[1..i];
  }

  /** `pop` keeps the other entries in their insertion order: removing a key
      that is found at index i and nowhere else (as in any dictionary) leaves
      exactly the entries before it followed by those after it. */
  lemma {:induction false} RemoveKeepsOrder(fs: seq<Finger>, id: int, i: nat)
    requires i < |fs| && fs[i].id == id
    requires forall j :: 0 <= j < |fs| && j != i ==> fs[j].id != id
    ensures Remove(fs, id) == fs[..i] + fs[i + 1..]
    decreases i
  {
    if i == 0 {
      RemoveFirstEntry(fs, id);
      assert fs[..0] + fs[1..] == fs[1..];
    } else {
      OnlyAtTail(fs, id, i);
      RemoveKeepsOrder(fs[1..], id, i - 1);
      RemoveSkipsHead(fs, id);
      SpliceHead(fs, i, Remove(fs, id), Remove(fs[1..], id));
    }
  }

  /** `placed.pop(k, None)` on the key sequence of `placed`. */
  function Without(ks: seq<int>, k: int): (r: seq<int>)
    ensures forall q :: q in r <==> q in ks && q != k
    ensures k !in ks ==> r == ks
    ensures |r| <= |ks|
  {
    if ks == [] then []
    else if ks[0] == k then Without(ks[1..], k)
    else [ks[0]] + Without(ks[1..], k)
  }
}
