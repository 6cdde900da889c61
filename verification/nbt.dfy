/** `unpack_nbt`: an NBT tag tree becomes native lists, dicts and values. */
module Nbt {

  /** An NBT tag: a list of tags, a compound of named tags, or a leaf value.
      Every tag carries its name; the names of list items go unused. */
  datatype Tag<V> =
    | ListTag(name: string, items: seq<Tag<V>>)
    | CompoundTag(name: string, children: seq<Tag<V>>)
    | ValueTag(name: string, value: V)

  /** A native Python value: a list, a dict keyed by strings, or a leaf value. */
  datatype Native<V> =
    | NList(elements: seq<Native<V>>)
    | NDict(entries: map<string, Native<V>>)
    | NValue(value: V)

  /** A dict built from `(key, value)` pairs in order: a later pair replaces
      an earlier one with the same key. */
  function PairsToDict<K, W>(pairs: seq<(K, W)>): (m: map<K, W>)
    ensures forall i :: 0 <= i < |pairs| ==> pairs[i].0 in m
    ensures forall k :: k in m ==> exists i :: 0 <= i < |pairs| && pairs[i].0 == k
    decreases |pairs|
  {
    if |pairs| == 0 then map[]
    else
      var init := pairs[..|pairs| - 1];
      var m := PairsToDict(init);
      assert forall i :: 0 <= i < |init| ==> init[i] == pairs[i];
      m[pairs[|pairs| - 1].0 := pairs[|pairs| - 1].1]
  }

  /** `unpack_nbt(tag)`. */
  function Unpack<V>(tag: Tag<V>): (r: Native<V>)
    ensures tag.ListTag? <==> r.NList?
    ensures tag.CompoundTag? <==> r.NDict?
    ensures tag.ValueTag? ==> r == NValue(tag.value)
    decreases tag
  {
    match tag
    case ListTag(_, items) =>
      NList(seq(|items|, i requires 0 <= i < |items| => Unpack(items[i])))
    case CompoundTag(_, children) =>
      NDict(PairsToDict(seq(|children|, i requires 0 <= i < |children| => (children[i].name, Unpack(children[i])))))
    case ValueTag(_, value) =>
      NValue(value)
  }

  /** A list tag unpacks to a list of the same length whose elements are its
      items unpacked, in order. */
  lemma UnpackList<V>(tag: Tag<V>)
    requires tag.ListTag?
    ensures |Unpack(tag).elements| == |tag.items|
    ensures forall i :: 0 <= i < |tag.items| ==> Unpack(tag).elements[i] == Unpack(tag.items[i])
  {
  }

  /** The value of `k` in a dict built from pairs is the value of the last
      pair with key `k`. */
  lemma {:induction false} PairsToDictLast<K, W>(pairs: seq<(K, W)>, i: nat)
    requires i < |pairs|
    requires forall j :: i < j < |pairs| ==> pairs[j].0 != pairs[i].0
    ensures PairsToDict(pairs)[pairs[i].0] == pairs[i].1
    decreases |pairs|
  {
    if i < |pairs| - 1 {
      var init := pairs[..|pairs| - 1];
      assert forall j :: i < j < |init| ==> init[j] == pairs[j];
      PairsToDictLast(init, i);
      assert init[i] == pairs[i];
    }
  }

  /** A compound tag unpacks to a dict whose keys are exactly its children's
      names, each holding the last child of that name unpacked. */
  lemma UnpackCompound<V>(tag: Tag<V>)
    requires tag.CompoundTag?
    ensures forall k :: k in Unpack(tag).entries <==> exists i :: 0 <= i < |tag.children| && tag.children[i].name == k
    ensures forall i :: 0 <= i < |tag.children| && (forall j :: i < j < |tag.children| ==> tag.children[j].name != tag.children[i].name)
              ==> Unpack(tag).entries[tag.children[i].name] == Unpack(tag.children[i])
  {
    var cs := tag.children;
    var pairs := seq(|cs|, i requires 0 <= i < |cs| => (cs[i].name, Unpack(cs[i])));
    assert Unpack(tag) == NDict(PairsToDict(pairs));
    forall k ensures k in Unpack(tag).entries <==> exists i :: 0 <= i < |cs| && cs[i].name == k {
      if exists i :: 0 <= i < |cs| && cs[i].name == k {
        var i :| 0 <= i < |cs| && cs[i].name == k;
        assert pairs[i].0 == k;
      }
    }
    forall i | 0 <= i < |cs| && (forall j :: i < j < |cs| ==> cs[j].name != cs[i].name)
      ensures Unpack(tag).entries[cs[i].name] == Unpack(cs[i])
    {
      PairsToDictLast(pairs, i);
    }
  }

  // ---------------------------------------------------------------------------
  // Packing lists and values back.

  /** A native value without dicts. */
  predicate DictFree<V>(n: Native<V>)
    decreases n
  {
    match n
    case NList(elements) => forall i :: 0 <= i < |elements| ==> DictFree(elements[i])
    case NDict(_) => false
    case NValue(_) => true
  }

  /** The tag tree of a dict-free native value, with unnamed tags. */
  function Pack<V>(n: Native<V>): (t: Tag<V>)
    requires DictFree(n)
    ensures n.NList? <==> t.ListTag?
    ensures t.name == "" && !t.CompoundTag?
    ensures n.NList? ==> |t.items| == |n.elements|
    decreases n
  {
    match n
    case NList(elements) => ListTag("", seq(|elements|, i requires 0 <= i < |elements| => Pack(elements[i])))
    case NValue(value) => ValueTag("", value)
  }

  /** Unpacking inverts packing: lists and values come back unchanged. */
  lemma {:induction false} UnpackPack<V>(n: Native<V>)
    requires DictFree(n)
    ensures Unpack(Pack(n)) == n
    decreases n
  {
    match n
    case NList(elements) =>
      forall i | 0 <= i < |elements| ensures Unpack(Pack(elements[i])) == elements[i] {
        UnpackPack(elements[i]);
      }
      assert Unpack(Pack(n)).elements == elements;
    case NValue(_) =>
  }
}
