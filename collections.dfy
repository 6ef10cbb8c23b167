/**
 * The text forms of the container kinds (types.go:35-53, 139-157). Each
 * collects the texts of its elements into a slice, in a loop, and joins
 * them between two delimiters. `fmt.Sprint` and `fmt`'s `%s` of an
 * arbitrary value are parameters.
 *
 * `Set` and `Map` are Go maps, whose iteration order is unspecified: the
 * loop takes the next key by an arbitrary choice, and the methods return,
 * as a ghost, the order they happened to use.
 */
module Collections {
  import opened GoBase
  import opened Strings

  /** The texts of `xs`, in order. */
  function Texts<V>(xs: seq<V>, show: V -> seq<byte>): (ts: seq<seq<byte>>)
    ensures |ts| == |xs|
    ensures forall i :: 0 <= i < |xs| ==> ts[i] == show(xs[i])
  {
    seq(|xs|, i requires 0 <= i < |xs| => show(xs[i]))
  }

  /** `open + strings.Join(texts, sep) + close`. */
  function Bracketed(open: seq<byte>, texts: seq<seq<byte>>, sep: seq<byte>, close: seq<byte>): seq<byte> {
    open + Join(texts, sep) + close
  }

  /** The loop of `Vector.String` and `List.String`: `fmt.Sprint` of each element, in order. */
  method SprintAll<V>(xs: seq<V>, sprint: V -> seq<byte>) returns (vals: seq<seq<byte>>)
    ensures vals == Texts(xs, sprint)
  {
    vals := [];
    for i := 0 to |xs|
      invariant |vals| == i
      invariant forall j :: 0 <= j < i ==> vals[j] == sprint(xs[j])
    {
      vals := vals + [sprint(xs[i])];
    }
  }

  /**
   * `order` lists every key of `keys` exactly once: as many entries as keys,
   * each a key, no two the same.
   */
  ghost predicate Enumerates<V>(order: seq<V>, keys: set<V>) {
    && |order| == |keys|
    && (forall i :: 0 <= i < |order| ==> order[i] in keys)
    && (forall i, j :: 0 <= i < j < |order| ==> order[i] != order[j])
  }

  /**
   * The element texts can be read back from the joined text by splitting on
   * the space, as long as there is at least one and none contains a space.
   */
  lemma BracketedSplit(open: seq<byte>, texts: seq<seq<byte>>, close: seq<byte>)
    requires |texts| >= 1 && Excludes(texts, Space)
    ensures var s := Bracketed(open, texts, [Space], close);
            |s| >= |open| + |close| && Split(s[|open|..|s| - |close|], Space) == texts
  {
    var s := Bracketed(open, texts, [Space], close);
    assert s[|open|..|s| - |close|] == Join(texts, [Space]);
    SplitJoin(texts, Space);
  }

  /** `Vector`: an ordered sequence printed between brackets. */
  datatype Vector<V> = Vector(elems: seq<V>) {
    /** `"[" + strings.Join(texts, " ") + "]"` over the elements' texts, in order. */
    method String(sprint: V -> seq<byte>) returns (s: seq<byte>)
      ensures s == Bracketed(Bytes("["), Texts(elems, sprint), [Space], Bytes("]"))
      ensures |elems| == 0 ==> s == Bytes("[]")
      ensures |elems| == 1 ==> s == Bytes("[") + sprint(elems[0]) + Bytes("]")
    {
      var vals := SprintAll(elems, sprint);
      s := Bytes("[") + Join(vals, [Space]) + Bytes("]");
      assert Bytes("[") + Bytes("]") == Bytes("[]");
    }
  }

  /** `List`: an ordered sequence printed between parentheses. */
  datatype List<V> = List(elems: seq<V>) {
    /** `"(" + strings.Join(texts, " ") + ")"` over the elements' texts, in order. */
    method String(sprint: V -> seq<byte>) returns (s: seq<byte>)
      ensures s == Bracketed(Bytes("("), Texts(elems, sprint), [Space], Bytes(")"))
      ensures |elems| == 0 ==> s == Bytes("()")
      ensures |elems| == 1 ==> s == Bytes("(") + sprint(elems[0]) + Bytes(")")
    {
      var vals := SprintAll(elems, sprint);
      s := Bytes("(") + Join(vals, [Space]) + Bytes(")");
      assert Bytes("(") + Bytes(")") == Bytes("()");
    }
  }

  /** `Set`: a Go map from element to bool; every key is printed, whatever its bool. */
  datatype Set<V(==)> = Set(members: map<V, bool>) {
    /** `"#{" + strings.Join(texts, " ") + "}"` over the keys' texts, in the order iteration met them. */
    method String(sprint: V -> seq<byte>) returns (s: seq<byte>, ghost order: seq<V>)
      ensures Enumerates(order, members.Keys)
      ensures s == Bracketed(Bytes("#{"), Texts(order, sprint), [Space], Bytes("}"))
      ensures |members.Keys| == 0 ==> s == Bytes("#{}")
      ensures |members.Keys| == 1 ==> s == Bytes("#{") + sprint(order[0]) + Bytes("}")
    {
      var keys: seq<seq<byte>> := [];
      var rest := members.Keys;
      order := [];
      while rest != {}
        invariant rest <= members.Keys
        invariant |order| + |rest| == |members.Keys|
        invariant forall x :: x in order ==> x in members.Keys && x !in rest
        invariant forall i, j :: 0 <= i < j < |order| ==> order[i] != order[j]
        invariant keys == Texts(order, sprint)
        decreases |rest|
      {
        var k :| k in rest;
        keys := keys + [sprint(k)];
        order := order + [k];
        rest := rest - {k};
      }
      s := Bytes("#{") + Join(keys, [Space]) + Bytes("}");
      assert Bytes("#{") + Bytes("}") == Bytes("#{}");
    }
  }

  /** `fmt.Sprintf("%s %s", k, v)`: one entry of a map's text form. */
  function EntryText<V>(k: V, v: V, formatS: V -> seq<byte>): seq<byte> {
    formatS(k) + [Space] + formatS(v)
  }

  /** The entry texts of `m` for the keys in `order`, in that order. */
  function EntryTexts<V(==)>(order: seq<V>, m: map<V, V>, formatS: V -> seq<byte>): (ts: seq<seq<byte>>)
    requires forall i :: 0 <= i < |order| ==> order[i] in m
    ensures |ts| == |order|
    ensures forall i :: 0 <= i < |order| ==> ts[i] == EntryText(order[i], m[order[i]], formatS)
  {
    seq(|order|, i requires 0 <= i < |order| => EntryText(order[i], m[order[i]], formatS))
  }

  /** `Map`: a Go map from value to value. */
  datatype Map<V(==)> = Map(entries: map<V, V>) {
    /** `"{" + strings.Join(entries, ", ") + "}"`, each entry `key value`, in the order iteration met them. */
    method String(formatS: V -> seq<byte>) returns (s: seq<byte>, ghost order: seq<V>)
      ensures Enumerates(order, entries.Keys)
      ensures s == Bracketed(Bytes("{"), EntryTexts(order, entries, formatS), Bytes(", "), Bytes("}"))
      ensures |entries.Keys| == 0 ==> s == Bytes("{}")
      ensures |entries.Keys| == 1 ==>
                s == Bytes("{") + formatS(order[0]) + [Space] + formatS(entries[order[0]]) + Bytes("}")
    {
      var kvs: seq<seq<byte>> := [];
      var rest := entries.Keys;
      order := [];
      while rest != {}
        invariant rest <= entries.Keys
        invariant |order| + |rest| == |entries.Keys|
        invariant forall x :: x in order ==> x in entries.Keys && x !in rest
        invariant forall i, j :: 0 <= i < j < |order| ==> order[i] != order[j]
        invariant |kvs| == |order|
        invariant forall i :: 0 <= i < |order| ==> kvs[i] == EntryText(order[i], entries[order[i]], formatS)
        decreases |rest|
      {
        var k :| k in rest;
        kvs := kvs + [EntryText(k, entries[k], formatS)];
        order := order + [k];
        rest := rest - {k};
      }
      assert kvs == EntryTexts(order, entries, formatS);
      s := Bytes("{") + Join(kvs, Bytes(", ")) + Bytes("}");
      assert Bytes("{") + Bytes("}") == Bytes("{}");
    }
  }
}
