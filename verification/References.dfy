/**
 Fragments whose references are written in one canonical form, the forms derived from it, and
 their resolution.

 Documents are plain trees: no anchors, aliases or styles.  Parsing and encoding of embedded
 documents, which can fail, are parameters of the case.  A walk finds the references of a tree and replaces them in
 one function, since no two places of a plain tree share a node.
 */
module References {
  import opened Wrappers
  import opened PathSyntax

  datatype Node = Scalar(tag: string, value: string) | Mapping(entries: seq<Entry>) | Sequence(items: seq<Node>)

  datatype Entry = Entry(key: string, value: Node)

  /** A string value declared to hold an embedded document. */
  datatype Decl = Decl(doc: string, path: string, format: string, identified: bool)

  datatype Case = Case(embedded: seq<Decl>, parse: string -> Option<Node>, encode: (Node, string) -> Option<string>)

  datatype Occurrence = Occurrence(ref: string, doc: string, path: Path)

  type Values = map<string, Node>

  const CANONICAL_TAG := "!ref"
  const CANDIDATE_TAG := "!bwref"

  /** What loading a case checks of its declarations. */
  predicate Valid(c: Case) {
    forall k :: 0 <= k < |c.embedded| ==> c.embedded[k].format == "yaml" || c.embedded[k].format == "json"
  }

  function PathText(p: Path): string {
    TextFrom(p, 0)
  }

  function EmbeddedIn(decls: seq<Decl>, doc: string, text: string): (d: Option<Decl>)
    ensures d.Some? ==> d.value in decls && d.value.path == text
  {
    if decls == [] then None
    else if decls[0].doc == doc && decls[0].path == text then Some(decls[0])
    else EmbeddedIn(decls[1..], doc, text)
  }

  function EmbeddedAt(c: Case, doc: string, p: Path): Option<Decl> {
    EmbeddedIn(c.embedded, doc, PathText(p))
  }

  /* ---- names ---- */

  const IDENTIFYING := ["name", "interface", "path"]

  /** The value of the first scalar under `field`. */
  function FirstScalar(es: seq<Entry>, field: string): Option<string> {
    if es == [] then None
    else if es[0].key == field && es[0].value.Scalar? then Some(es[0].value.value)
    else FirstScalar(es[1..], field)
  }

  function ElementStep(item: Node, index: nat): Step {
    if !item.Mapping? then Position(index)
    else
      var name, interface, path :=
        FirstScalar(item.entries, "name"), FirstScalar(item.entries, "interface"), FirstScalar(item.entries, "path");
      if name.Some? then Selector("name", name.value)
      else if interface.Some? then Selector("interface", interface.value)
      else if path.Some? then Selector("path", path.value)
      else Position(index)
  }

  function ValueOf(n: Node): string {
    if n.Scalar? then n.value else ""
  }

  /** The value of the last entry under `field`, or nothing. */
  function LastValue(es: seq<Entry>, field: string): string {
    if es == [] then ""
    else if es[|es| - 1].key == field then ValueOf(es[|es| - 1].value)
    else LastValue(es[..|es| - 1], field)
  }

  function NameFrom(kind: string, name: string): string {
    if kind == "" then "v1alpha1" else if name == "" then kind else kind + "/" + name
  }

  function DocID(root: Node): string {
    if root.Mapping? then NameFrom(LastValue(root.entries, "kind"), LastValue(root.entries, "name"))
    else NameFrom("", "")
  }

  /* ---- termination: an embedded document is deeper than its declaration ---- */

  /** How many declarations have a path text of at least `n` characters. */
  function Left(decls: seq<Decl>, n: nat): nat {
    if decls == [] then 0 else (if |decls[0].path| >= n then 1 else 0) + Left(decls[1..], n)
  }

  lemma {:induction false} LeftFalls(decls: seq<Decl>, n: nat, m: nat)
    requires n <= m
    ensures Left(decls, m) <= Left(decls, n)
    ensures n < m && (exists d :: d in decls && |d.path| == n) ==> Left(decls, m) < Left(decls, n)
  {
    if decls != [] {
      LeftFalls(decls[1..], n, m);
    }
  }

  lemma {:induction false} TextGrows(p: Path, s: Step, k: nat)
    requires k <= |p|
    ensures TextFrom(p + [s], k) == TextFrom(p, k) + Piece(s, |p| == 0)
    decreases |p| - k
  {
    var q := p + [s];
    if k < |p| {
      TextGrows(p, s, k + 1);
      assert q[k] == p[k];
      assert Piece(p[k], k == 0) + (TextFrom(p, k + 1) + Piece(s, |p| == 0))
          == (Piece(p[k], k == 0) + TextFrom(p, k + 1)) + Piece(s, |p| == 0);
    } else {
      assert TextFrom(q, k + 1) == "" && q[k] == s;
      assert TextFrom(p, k) == "";
    }
  }

  /** A step leaves no more declarations ahead. */
  lemma StepLeft(c: Case, p: Path, s: Step)
    ensures Left(c.embedded, |PathText(p + [s])|) <= Left(c.embedded, |PathText(p)|)
  {
    TextGrows(p, s, 0);
    LeftFalls(c.embedded, |PathText(p)|, |PathText(p + [s])|);
  }

  /** And going into an embedded document leaves fewer. */
  lemma EmbedLeft(c: Case, doc: string, p: Path)
    requires Valid(c) && EmbeddedAt(c, doc, p).Some?
    ensures var d := EmbeddedAt(c, doc, p).value;
            Left(c.embedded, |PathText(p + [Embed(d.format)])|) < Left(c.embedded, |PathText(p)|)
  {
    var d := EmbeddedAt(c, doc, p).value;
    TextGrows(p, Embed(d.format), 0);
    LeftFalls(c.embedded, |PathText(p)|, |PathText(p + [Embed(d.format)])|);
  }

  /* ---- the walk ---- */

  /** The tag that marks a reference, whether unidentified embedded documents are walked too, and
      what takes the place of a reference. */
  datatype Pass = Pass(tag: string, all: bool, act: string -> Option<Node>)

  function Lookup(values: Values): string -> Option<Node> {
    (ref: string) => if ref in values then Some(values[ref]) else None
  }

  /** The reference-free form. */
  function LiteralPass(values: Values): Pass {
    Pass(CANONICAL_TAG, true, Lookup(values))
  }

  /** The tag candidate's form. */
  function TagPass(): Pass {
    Pass(CANONICAL_TAG, true, (ref: string) => Some(Scalar(CANDIDATE_TAG, ref)))
  }

  /** Its resolution. */
  function ResolvePass(values: Values): Pass {
    Pass(CANDIDATE_TAG, false, Lookup(values))
  }

  datatype Walked<+T> = Walked(result: T, found: seq<Occurrence>)

  /** The tree with its references replaced and the references in document order; nothing when an
      embedded document does not parse or cannot be written, or a reference has no value. */
  function Walk(c: Case, w: Pass, n: Node, doc: string, p: Path): Option<Walked<Node>>
    requires Valid(c)
    decreases Left(c.embedded, |PathText(p)|), n
  {
    match n
    case Scalar(tag, value) =>
      if tag == w.tag then
        if w.act(value).None? then None
        else Some(Walked(w.act(value).value, [Occurrence(value, doc, p)]))
      else
        var d := EmbeddedAt(c, doc, p);
        if d.None? || !(w.all || d.value.identified) then Some(Walked(n, []))
        else
          EmbedLeft(c, doc, p);
          var tree := c.parse(value);
          if tree.None? then None
          else
            var r := Walk(c, w, tree.value, doc, p + [Embed(d.value.format)]);
            if r.None? then None
            else
              var text := c.encode(r.value.result, d.value.format);
              if text.None? then None else Some(Walked(Scalar("!!str", text.value), r.value.found))
    case Mapping(es) =>
      var r := WalkEntries(c, w, es, doc, p);
      if r.None? then None else Some(Walked(Mapping(r.value.result), r.value.found))
    case Sequence(items) =>
      var r := WalkItems(c, w, items, 0, doc, p);
      if r.None? then None else Some(Walked(Sequence(r.value.result), r.value.found))
  }

  function WalkEntries(c: Case, w: Pass, es: seq<Entry>, doc: string, p: Path): Option<Walked<seq<Entry>>>
    requires Valid(c)
    decreases Left(c.embedded, |PathText(p)|), es
  {
    if es == [] then Some(Walked([], []))
    else
      StepLeft(c, p, Key(es[0].key));
      var v := Walk(c, w, es[0].value, doc, p + [Key(es[0].key)]);
      var r := WalkEntries(c, w, es[1..], doc, p);
      if v.None? || r.None? then None
      else Some(Walked([Entry(es[0].key, v.value.result)] + r.value.result, v.value.found + r.value.found))
  }

  function WalkItems(c: Case, w: Pass, items: seq<Node>, i: nat, doc: string, p: Path): Option<Walked<seq<Node>>>
    requires Valid(c)
    decreases Left(c.embedded, |PathText(p)|), items
  {
    if items == [] then Some(Walked([], []))
    else
      StepLeft(c, p, ElementStep(items[0], i));
      var v := Walk(c, w, items[0], doc, p + [ElementStep(items[0], i)]);
      var r := WalkItems(c, w, items[1..], i + 1, doc, p);
      if v.None? || r.None? then None
      else Some(Walked([v.value.result] + r.value.result, v.value.found + r.value.found))
  }

  /** Documents, each walked under its own name. */
  function WalkDocs(c: Case, w: Pass, docs: seq<Node>): Option<Walked<seq<Node>>>
    requires Valid(c)
  {
    if docs == [] then Some(Walked([], []))
    else
      var v := Walk(c, w, docs[0], DocID(docs[0]), []);
      var r := WalkDocs(c, w, docs[1..]);
      if v.None? || r.None? then None
      else Some(Walked([v.value.result] + r.value.result, v.value.found + r.value.found))
  }

  /* ---- the binding form ---- */

  predicate IsRef(n: Node) {
    n.Scalar? && n.tag == CANONICAL_TAG
  }

  /** A mapping that only its references filled. */
  predicate Emptied(before: Node, after: Node) {
    before.Mapping? && after.Mapping? && before.entries != [] && after.entries == []
  }

  /** The tree without its references and without the mappings that this empties; nothing when a
      reference is not the value of a mapping key or an embedded document cannot be written. */
  function Strip(c: Case, n: Node, doc: string, p: Path): Option<Node>
    requires Valid(c)
    decreases Left(c.embedded, |PathText(p)|), n
  {
    match n
    case Scalar(tag, value) =>
      if tag == CANONICAL_TAG then None
      else
        var d := EmbeddedAt(c, doc, p);
        if d.None? then Some(n)
        else
          EmbedLeft(c, doc, p);
          var tree := c.parse(value);
          if tree.None? then None
          else
            var r := Strip(c, tree.value, doc, p + [Embed(d.value.format)]);
            if r.None? then None
            else
              var text := c.encode(r.value, d.value.format);
              if text.None? then None else Some(Scalar("!!str", text.value))
    case Mapping(es) =>
      var r := StripEntries(c, es, doc, p);
      if r.None? then None else Some(Mapping(r.value))
    case Sequence(items) =>
      var r := StripItems(c, items, 0, doc, p);
      if r.None? then None else Some(Sequence(r.value))
  }

  function StripEntries(c: Case, es: seq<Entry>, doc: string, p: Path): Option<seq<Entry>>
    requires Valid(c)
    decreases Left(c.embedded, |PathText(p)|), es
  {
    if es == [] then Some([])
    else
      var rest := StripEntries(c, es[1..], doc, p);
      if rest.None? then None
      else if IsRef(es[0].value) then rest
      else
        StepLeft(c, p, Key(es[0].key));
        var v := Strip(c, es[0].value, doc, p + [Key(es[0].key)]);
        if v.None? then None
        else if Emptied(es[0].value, v.value) then rest
        else Some([Entry(es[0].key, v.value)] + rest.value)
  }

  function StripItems(c: Case, items: seq<Node>, i: nat, doc: string, p: Path): Option<seq<Node>>
    requires Valid(c)
    decreases Left(c.embedded, |PathText(p)|), items
  {
    if items == [] then Some([])
    else
      StepLeft(c, p, ElementStep(items[0], i));
      var v := Strip(c, items[0], doc, p + [ElementStep(items[0], i)]);
      var rest := StripItems(c, items[1..], i + 1, doc, p);
      if v.None? || rest.None? then None else Some([v.value] + rest.value)
  }

  function StripDocs(c: Case, docs: seq<Node>): Option<seq<Node>>
    requires Valid(c)
  {
    if docs == [] then Some([])
    else
      var v := Strip(c, docs[0], DocID(docs[0]), []);
      var rest := StripDocs(c, docs[1..]);
      if v.None? || rest.None? then None else Some([v.value] + rest.value)
  }

  /* ---- its resolution ---- */

  /** The first entry under a key, or the length. */
  function FindKey(es: seq<Entry>, key: string): (i: nat)
    ensures i <= |es|
    ensures i < |es| ==> es[i].key == key
    ensures forall k :: 0 <= k < i ==> es[k].key != key
  {
    if es == [] || es[0].key == key then 0 else 1 + FindKey(es[1..], key)
  }

  /** A step names a sequence element by its identifying field or by its position. */
  predicate Names(s: Step, item: Node, i: nat) {
    ElementStep(item, i) == s || (s.isIndex && s.index == i)
  }

  /** The first element a step names, or the length. */
  function FindItem(items: seq<Node>, s: Step, i: nat): (k: nat)
    requires i <= |items|
    ensures i <= k <= |items|
    ensures k < |items| ==> Names(s, items[k], k)
    ensures forall j :: i <= j < k ==> !Names(s, items[j], j)
    decreases |items| - i
  {
    if i == |items| || Names(s, items[i], i) then i else FindItem(items, s, i + 1)
  }

  /** Puts `v` at the rest of a path under `n`, creating missing mapping keys. */
  function SetAt(c: Case, doc: string, n: Node, at: Path, rest: Path, v: Node): Option<Node>
    requires rest != []
    decreases |rest|
  {
    var s, last := rest[0], |rest| == 1;
    if s.embedded != "" then
      var d := EmbeddedAt(c, doc, at);
      if d.None? || !d.value.identified || !n.Scalar? || c.parse(n.value).None? || last then None
      else
        var r := SetAt(c, doc, c.parse(n.value).value, at + [s], rest[1..], v);
        if r.None? then None
        else
          var text := c.encode(r.value, d.value.format);
          if text.None? then None else Some(Scalar("!!str", text.value))
    else if s.selKey != "" || s.isIndex then
      if !n.Sequence? then None
      else
        var i := FindItem(n.items, s, 0);
        if i == |n.items| then None
        else if last then Some(Sequence(n.items[i := v]))
        else
          var r := SetAt(c, doc, n.items[i], at + [s], rest[1..], v);
          if r.None? then None else Some(Sequence(n.items[i := r.value]))
    else if !n.Mapping? then None
    else
      var i := FindKey(n.entries, s.key);
      var child := if i < |n.entries| then n.entries[i].value else Mapping([]);
      var r := if last then Some(v) else SetAt(c, doc, child, at + [s], rest[1..], v);
      if r.None? then None
      else if i < |n.entries| then Some(Mapping(n.entries[i := Entry(s.key, r.value)]))
      else Some(Mapping(n.entries + [Entry(s.key, r.value)]))
  }

  /** The first document of a name, or the length. */
  function FindDoc(docs: seq<Node>, id: string): (i: nat)
    ensures i <= |docs|
    ensures i < |docs| ==> DocID(docs[i]) == id
    ensures forall k :: 0 <= k < i ==> DocID(docs[k]) != id
  {
    if docs == [] || DocID(docs[0]) == id then 0 else 1 + FindDoc(docs[1..], id)
  }

  function ResolveBinding(c: Case, values: Values, docs: seq<Node>, b: Occurrence): Option<seq<Node>> {
    var i := FindDoc(docs, b.doc);
    if b.ref !in values || i == |docs| || b.path == [] then None
    else
      var r := SetAt(c, b.doc, docs[i], [], b.path, values[b.ref]);
      if r.None? then None else Some(docs[i := r.value])
  }

  /** Applies the bindings in order. */
  function ResolveBindings(c: Case, values: Values, docs: seq<Node>, bindings: seq<Occurrence>): Option<seq<Node>>
    decreases |bindings|
  {
    if bindings == [] then Some(docs)
    else
      var r := ResolveBinding(c, values, docs, bindings[0]);
      if r.None? then None else ResolveBindings(c, values, r.value, bindings[1..])
  }
}
