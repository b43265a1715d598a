/** What setAt puts at a path is found there, for paths of every kind of step. */
module ReferencesLens {
  import opened Wrappers
  import opened PathSyntax
  import opened References
  import opened ReferencesMeaning

  /** The node at the rest of a path under `n`. */
  function GetAt(c: Case, doc: string, n: Node, at: Path, rest: Path): Option<Node>
    requires rest != []
    decreases |rest|
  {
    var s, last := rest[0], |rest| == 1;
    if s.embedded != "" then
      var d := EmbeddedAt(c, doc, at);
      if d.None? || !d.value.identified || !n.Scalar? || c.parse(n.value).None? || last then None
      else GetAt(c, doc, c.parse(n.value).value, at + [s], rest[1..])
    else if s.selKey != "" || s.isIndex then
      if !n.Sequence? || FindItem(n.items, s, 0) == |n.items| then None
      else
        var item := n.items[FindItem(n.items, s, 0)];
        if last then Some(item) else GetAt(c, doc, item, at + [s], rest[1..])
    else if !n.Mapping? || FindKey(n.entries, s.key) == |n.entries| then None
    else
      var child := n.entries[FindKey(n.entries, s.key)].value;
      if last then Some(child) else GetAt(c, doc, child, at + [s], rest[1..])
  }

  predicate IsSelector(s: Step) {
    s.embedded == "" && s.selKey != "" && !s.isIndex
  }

  predicate IsPlainKey(s: Step) {
    s.embedded == "" && s.selKey == "" && !s.isIndex && s.key !in IDENTIFYING
  }

  /** Below an element that a field names, the path goes on to another field: setting there does not
      rename the element. */
  predicate Steady(rest: Path) {
    forall k :: 0 <= k < |rest| && IsSelector(rest[k]) ==> k + 1 < |rest| && IsPlainKey(rest[k + 1])
  }

  /** Every embedded document that setting writes can be written and reads back, up to key order. */
  predicate SetReads(c: Case, doc: string, n: Node, at: Path, rest: Path, v: Node)
    requires Valid(c)
    decreases |rest|
  {
    if |rest| <= 1 then true
    else
      var s := rest[0];
      if s.embedded != "" then
        var d := EmbeddedAt(c, doc, at);
        d.Some? && n.Scalar? && c.parse(n.value).Some? ==>
          var tree := c.parse(n.value).value;
          var r := SetAt(c, doc, tree, at + [s], rest[1..], v);
          SetReads(c, doc, tree, at + [s], rest[1..], v) && (r.Some? ==> ReadsBackAt(c, r.value, d.value.format, doc, at + [s]))
      else if s.selKey != "" || s.isIndex then
        n.Sequence? && FindItem(n.items, s, 0) < |n.items| ==> SetReads(c, doc, n.items[FindItem(n.items, s, 0)], at + [s], rest[1..], v)
      else if n.Mapping? then
        var i := FindKey(n.entries, s.key);
        SetReads(c, doc, if i < |n.entries| then n.entries[i].value else Mapping([]), at + [s], rest[1..], v)
      else true
  }

  predicate NoEmbedded(rest: Path) {
    forall k :: 0 <= k < |rest| ==> rest[k].embedded == ""
  }

  /** A path that goes into no embedded document, or a case without any, asks nothing of the encoder. */
  lemma {:induction false} PlainPathReads(c: Case, doc: string, n: Node, at: Path, rest: Path, v: Node)
    requires Valid(c) && (NoEmbedded(rest) || c.embedded == [])
    ensures SetReads(c, doc, n, at, rest, v)
    decreases |rest|
  {
    if |rest| > 1 && rest[0].embedded == "" {
      var s, more := rest[0], rest[1..];
      assert forall k :: 0 <= k < |more| ==> more[k] == rest[k + 1];
      if s.selKey != "" || s.isIndex {
        if n.Sequence? && FindItem(n.items, s, 0) < |n.items| {
          PlainPathReads(c, doc, n.items[FindItem(n.items, s, 0)], at + [s], more, v);
        }
      } else if n.Mapping? {
        var i := FindKey(n.entries, s.key);
        PlainPathReads(c, doc, if i < |n.entries| then n.entries[i].value else Mapping([]), at + [s], more, v);
      }
    }
  }

  /** Every step is written as the walk writes it: an element that has a name is not led to by its
      position. */
  predicate Straight(c: Case, doc: string, n: Node, at: Path, rest: Path)
    decreases |rest|
  {
    if rest == [] then true
    else
      var s := rest[0];
      if s.embedded != "" then
        EmbeddedAt(c, doc, at).Some? && EmbeddedAt(c, doc, at).value.identified && n.Scalar? && c.parse(n.value).Some? ==>
          s == Embed(EmbeddedAt(c, doc, at).value.format) && Straight(c, doc, c.parse(n.value).value, at + [s], rest[1..])
      else if s.selKey != "" || s.isIndex then
        n.Sequence? && FindItem(n.items, s, 0) < |n.items| ==>
          var i := FindItem(n.items, s, 0);
          ElementStep(n.items[i], i) == s && Straight(c, doc, n.items[i], at + [s], rest[1..])
      else
        n.Mapping? && FindKey(n.entries, s.key) < |n.entries| ==>
          s == Key(s.key) && Straight(c, doc, n.entries[FindKey(n.entries, s.key)].value, at + [s], rest[1..])
  }

  /** What is found at a path of trees that mean the same means the same. */
  ghost predicate Alike(c: Case, doc: string, a: Option<Node>, b: Option<Node>, p: Path)
    requires Valid(c)
  {
    a.Some? == b.Some? && (a.Some? ==> Norm(c, a.value, doc, p) == Norm(c, b.value, doc, p))
  }

  /** Sequences that mean the same: a step leads to the same element. */
  lemma SameElement(c: Case, doc: string, a: seq<Node>, b: seq<Node>, at: Path, s: Step)
    requires Valid(c) && NormItems(c, a, 0, doc, at) == NormItems(c, b, 0, doc, at)
    ensures |a| == |b| && FindItem(a, s, 0) == FindItem(b, s, 0)
    ensures var i := FindItem(a, s, 0);
            i < |a| ==> var e := ElementStep(a[i], i);
                        ElementStep(b[i], i) == e && Norm(c, a[i], doc, at + [e]) == Norm(c, b[i], doc, at + [e])
  {
    FindSame(c, a, s, doc, at);
    FindSame(c, b, s, doc, at);
    var i := FindItem(a, s, 0);
    if i < |a| {
      NormItemsAt(c, a, 0, doc, at, i);
      NormItemsAt(c, b, 0, doc, at, i);
    }
  }

  /** Mappings that mean the same: a key leads to values that mean the same. */
  lemma SameEntry(c: Case, doc: string, a: seq<Entry>, b: seq<Entry>, at: Path, key: string)
    requires Valid(c) && NormEntries(c, a, doc, at) == NormEntries(c, b, doc, at)
    ensures FindKey(a, key) < |a| <==> FindKey(b, key) < |b|
    ensures FindKey(a, key) < |a| ==>
              Norm(c, a[FindKey(a, key)].value, doc, at + [Key(key)]) == Norm(c, b[FindKey(b, key)].value, doc, at + [Key(key)])
  {
    var none := Mapping([]);
    if FindKey(a, key) < |a| {
      NormUpdate(c, a, key, none, doc, at);
    } else {
      NormAppend(c, a, key, none, doc, at);
    }
    if FindKey(b, key) < |b| {
      NormUpdate(c, b, key, none, doc, at);
    } else {
      NormAppend(c, b, key, none, doc, at);
    }
  }

  lemma {:induction false} SameFound(c: Case, doc: string, t: Node, t': Node, at: Path, rest: Path)
    requires Valid(c) && rest != [] && Norm(c, t, doc, at) == Norm(c, t', doc, at) && Straight(c, doc, t', at, rest)
    ensures Straight(c, doc, t, at, rest) && Alike(c, doc, GetAt(c, doc, t, at, rest), GetAt(c, doc, t', at, rest), at + rest)
    decreases |rest|, 1
  {
    var s, more := rest[0], rest[1..];
    assert at + rest == (at + [s]) + more;
    if s.embedded != "" {
      if t != t' && t.Scalar? && more != [] {
        SameFound(c, doc, c.parse(t.value).value, c.parse(t'.value).value, at + [s], more);
      }
    } else if IsElement(s) {
      SameFoundInList(c, doc, t, t', at, rest);
    } else {
      SameFoundInMapping(c, doc, t, t', at, rest);
    }
  }

  lemma {:induction false} SameFoundInList(c: Case, doc: string, t: Node, t': Node, at: Path, rest: Path)
    requires Valid(c) && rest != [] && Norm(c, t, doc, at) == Norm(c, t', doc, at) && Straight(c, doc, t', at, rest)
    requires IsElement(rest[0]) && at + rest == (at + [rest[0]]) + rest[1..]
    ensures Straight(c, doc, t, at, rest) && Alike(c, doc, GetAt(c, doc, t, at, rest), GetAt(c, doc, t', at, rest), at + rest)
    decreases |rest|, 0
  {
    var s, more := rest[0], rest[1..];
    if t.Sequence? {
      SameElement(c, doc, t.items, t'.items, at, s);
      var i := FindItem(t.items, s, 0);
      if i < |t.items| {
        if more != [] {
          SameFound(c, doc, t.items[i], t'.items[i], at + [s], more);
        } else {
          assert at + rest == at + [s];
        }
      }
    }
  }

  lemma {:induction false} SameFoundInMapping(c: Case, doc: string, t: Node, t': Node, at: Path, rest: Path)
    requires Valid(c) && rest != [] && Norm(c, t, doc, at) == Norm(c, t', doc, at) && Straight(c, doc, t', at, rest)
    requires rest[0].embedded == "" && !IsElement(rest[0]) && at + rest == (at + [rest[0]]) + rest[1..]
    ensures Straight(c, doc, t, at, rest) && Alike(c, doc, GetAt(c, doc, t, at, rest), GetAt(c, doc, t', at, rest), at + rest)
    decreases |rest|, 0
  {
    var s, more := rest[0], rest[1..];
    if t.Mapping? {
      SameEntry(c, doc, t.entries, t'.entries, at, s.key);
      var i, j := FindKey(t.entries, s.key), FindKey(t'.entries, s.key);
      if i < |t.entries| {
        if more != [] {
          SameFound(c, doc, t.entries[i].value, t'.entries[j].value, at + [s], more);
        } else {
          assert at + rest == at + [s];
        }
      }
    }
  }

  lemma {:induction false} FirstScalarSet(es: seq<Entry>, key: string, v: Node, field: string)
    requires field != key
    ensures var i := FindKey(es, key);
            FirstScalar(if i < |es| then es[i := Entry(key, v)] else es + [Entry(key, v)], field) == FirstScalar(es, field)
  {
    var i := FindKey(es, key);
    var es' := if i < |es| then es[i := Entry(key, v)] else es + [Entry(key, v)];
    if es == [] {
      assert es'[1..] == [];
    } else if i == 0 {
      assert es'[1..] == es[1..];
    } else {
      FirstScalarSet(es[1..], key, v, field);
      assert es'[1..] == if i < |es| then es[1..][i - 1 := Entry(key, v)] else es[1..] + [Entry(key, v)];
    }
  }

  lemma StepStays(c: Case, doc: string, item: Node, at: Path, rest: Path, v: Node, i: nat)
    requires rest != [] && IsPlainKey(rest[0]) && SetAt(c, doc, item, at, rest, v).Some?
    ensures ElementStep(SetAt(c, doc, item, at, rest, v).value, i) == ElementStep(item, i)
  {
    assert IDENTIFYING[0] == "name" && IDENTIFYING[1] == "interface" && IDENTIFYING[2] == "path";
    var key := rest[0].key;
    var r := SetAt(c, doc, item, at, rest, v).value;
    var k := FindKey(item.entries, key);
    var x := r.entries[k].value;
    FirstScalarSet(item.entries, key, x, "name");
    FirstScalarSet(item.entries, key, x, "interface");
    FirstScalarSet(item.entries, key, x, "path");
  }

  lemma FindAgain(items: seq<Node>, s: Step, x: Node)
    requires var i := FindItem(items, s, 0); i < |items| && Names(s, x, i)
    ensures FindItem(items[FindItem(items, s, 0) := x], s, 0) == FindItem(items, s, 0)
  {
    var i := FindItem(items, s, 0);
    var items' := items[i := x];
    forall j | 0 <= j < i ensures !Names(s, items'[j], j) {
      assert items'[j] == items[j];
    }
    assert Names(s, items'[i], i);
  }

  lemma FindKeyAgain(es: seq<Entry>, key: string, v: Node)
    ensures var i := FindKey(es, key);
            var es' := if i < |es| then es[i := Entry(key, v)] else es + [Entry(key, v)];
            FindKey(es', key) == i && es'[i].value == v
  {
    var i := FindKey(es, key);
    var es' := if i < |es| then es[i := Entry(key, v)] else es + [Entry(key, v)];
    forall j | 0 <= j < i ensures es'[j].key != key {
      assert es'[j] == es[j];
    }
    assert es'[i].key == key;
  }

  lemma SteadyRest(rest: Path)
    requires rest != [] && Steady(rest)
    ensures Steady(rest[1..])
  {
    var more := rest[1..];
    forall k | 0 <= k < |more| && IsSelector(more[k]) ensures k + 1 < |more| && IsPlainKey(more[k + 1]) {
      assert more[k] == rest[k + 1];
      assert more[k + 1] == rest[k + 2];
    }
  }

  /** Every element on the way still answers to the step that led to it. */
  predicate Lands(c: Case, doc: string, n: Node, at: Path, rest: Path, v: Node)
    requires rest != [] && SetAt(c, doc, n, at, rest, v).Some?
    decreases |rest|
  {
    var s, last := rest[0], |rest| == 1;
    if s.embedded != "" then Lands(c, doc, c.parse(n.value).value, at + [s], rest[1..], v)
    else if s.selKey != "" || s.isIndex then
      var i := FindItem(n.items, s, 0);
      if last then Names(s, v, i)
      else
        Names(s, SetAt(c, doc, n.items[i], at + [s], rest[1..], v).value, i) && Lands(c, doc, n.items[i], at + [s], rest[1..], v)
    else if last then true
    else
      var i := FindKey(n.entries, s.key);
      Lands(c, doc, if i < |n.entries| then n.entries[i].value else Mapping([]), at + [s], rest[1..], v)
  }

  /** Below a selector another field is set: the element keeps its name. */
  lemma {:induction false} SteadyLands(c: Case, doc: string, n: Node, at: Path, rest: Path, v: Node)
    requires rest != [] && Steady(rest) && SetAt(c, doc, n, at, rest, v).Some?
    ensures Lands(c, doc, n, at, rest, v)
    decreases |rest|
  {
    var s := rest[0];
    SteadyRest(rest);
    if s.embedded != "" {
      SteadyLands(c, doc, c.parse(n.value).value, at + [s], rest[1..], v);
    } else if s.selKey != "" || s.isIndex {
      var i := FindItem(n.items, s, 0);
      if IsSelector(s) {
        assert IsPlainKey(rest[1]) && rest[1..][0] == rest[1];
        StepStays(c, doc, n.items[i], at + [s], rest[1..], v, i);
      }
      if |rest| > 1 {
        SteadyLands(c, doc, n.items[i], at + [s], rest[1..], v);
      }
    } else if |rest| > 1 {
      var i := FindKey(n.entries, s.key);
      SteadyLands(c, doc, if i < |n.entries| then n.entries[i].value else Mapping([]), at + [s], rest[1..], v);
    }
  }

  /**
   Whatever is set at a path is found at it afterwards: through mapping keys, whether they were there
   or were created, through positions, through elements that still have the name that led to them,
   and, up to the order of keys, through identified embedded documents that read back.
   */
  lemma {:induction false} SetThenGet(c: Case, doc: string, n: Node, at: Path, rest: Path, v: Node)
    requires Valid(c) && rest != [] && SetAt(c, doc, n, at, rest, v).Some?
    requires Lands(c, doc, n, at, rest, v) && SetReads(c, doc, n, at, rest, v)
    requires NoEmbedded(rest) || Straight(c, doc, SetAt(c, doc, n, at, rest, v).value, at, rest)
    ensures Alike(c, doc, GetAt(c, doc, SetAt(c, doc, n, at, rest, v).value, at, rest), Some(v), at + rest)
    ensures NoEmbedded(rest) ==> GetAt(c, doc, SetAt(c, doc, n, at, rest, v).value, at, rest) == Some(v)
    decreases |rest|, 1
  {
    var s, more := rest[0], rest[1..];
    assert at + rest == (at + [s]) + more;
    NoEmbeddedRest(rest);
    if s.embedded != "" {
      SetThenGetInside(c, doc, n, at, rest, v);
    } else if s.selKey != "" || s.isIndex {
      SetThenGetInList(c, doc, n, at, rest, v);
    } else {
      SetThenGetInMapping(c, doc, n, at, rest, v);
    }
  }

  lemma NoEmbeddedRest(rest: Path)
    requires rest != []
    ensures NoEmbedded(rest) <==> rest[0].embedded == "" && NoEmbedded(rest[1..])
  {
    assert forall k :: 0 < k < |rest| ==> rest[k] == rest[1..][k - 1];
  }

  lemma {:induction false} SetThenGetInList(c: Case, doc: string, n: Node, at: Path, rest: Path, v: Node)
    requires Valid(c) && rest != [] && SetAt(c, doc, n, at, rest, v).Some?
    requires Lands(c, doc, n, at, rest, v) && SetReads(c, doc, n, at, rest, v)
    requires NoEmbedded(rest) || Straight(c, doc, SetAt(c, doc, n, at, rest, v).value, at, rest)
    requires at + rest == (at + [rest[0]]) + rest[1..] && (NoEmbedded(rest) <==> rest[0].embedded == "" && NoEmbedded(rest[1..]))
    requires rest[0].embedded == "" && IsElement(rest[0])
    ensures Alike(c, doc, GetAt(c, doc, SetAt(c, doc, n, at, rest, v).value, at, rest), Some(v), at + rest)
    ensures NoEmbedded(rest) ==> GetAt(c, doc, SetAt(c, doc, n, at, rest, v).value, at, rest) == Some(v)
    decreases |rest|, 0
  {
    var s, more := rest[0], rest[1..];
    var i := FindItem(n.items, s, 0);
    if more == [] {
      FindAgain(n.items, s, v);
    } else {
      FindAgain(n.items, s, SetAt(c, doc, n.items[i], at + [s], more, v).value);
      SetThenGet(c, doc, n.items[i], at + [s], more, v);
    }
  }

  lemma {:induction false} SetThenGetInMapping(c: Case, doc: string, n: Node, at: Path, rest: Path, v: Node)
    requires Valid(c) && rest != [] && SetAt(c, doc, n, at, rest, v).Some?
    requires Lands(c, doc, n, at, rest, v) && SetReads(c, doc, n, at, rest, v)
    requires NoEmbedded(rest) || Straight(c, doc, SetAt(c, doc, n, at, rest, v).value, at, rest)
    requires at + rest == (at + [rest[0]]) + rest[1..] && (NoEmbedded(rest) <==> rest[0].embedded == "" && NoEmbedded(rest[1..]))
    requires rest[0].embedded == "" && !IsElement(rest[0])
    ensures Alike(c, doc, GetAt(c, doc, SetAt(c, doc, n, at, rest, v).value, at, rest), Some(v), at + rest)
    ensures NoEmbedded(rest) ==> GetAt(c, doc, SetAt(c, doc, n, at, rest, v).value, at, rest) == Some(v)
    decreases |rest|, 0
  {
    var s, more := rest[0], rest[1..];
    var i := FindKey(n.entries, s.key);
    if more == [] {
      FindKeyAgain(n.entries, s.key, v);
    } else {
      var child := if i < |n.entries| then n.entries[i].value else Mapping([]);
      FindKeyAgain(n.entries, s.key, SetAt(c, doc, child, at + [s], more, v).value);
      SetThenGet(c, doc, child, at + [s], more, v);
    }
  }

  lemma {:induction false} SetThenGetInside(c: Case, doc: string, n: Node, at: Path, rest: Path, v: Node)
    requires Valid(c) && rest != [] && rest[0].embedded != "" && SetAt(c, doc, n, at, rest, v).Some?
    requires Lands(c, doc, n, at, rest, v) && SetReads(c, doc, n, at, rest, v) && at + rest == (at + [rest[0]]) + rest[1..]
    requires Straight(c, doc, SetAt(c, doc, n, at, rest, v).value, at, rest)
    ensures Alike(c, doc, GetAt(c, doc, SetAt(c, doc, n, at, rest, v).value, at, rest), Some(v), at + rest)
    decreases |rest|, 0
  {
    var s, more := rest[0], rest[1..];
    var tree := c.parse(n.value).value;
    var r := SetAt(c, doc, tree, at + [s], more, v).value;
    var text := c.encode(r, EmbeddedAt(c, doc, at).value.format).value;
    SameFound(c, doc, r, c.parse(text).value, at + [s], more);
    SetThenGet(c, doc, tree, at + [s], more, v);
  }
}
