/**
 Attribution of leaves by comparing a real composition with a tracer composition, and redaction of
 the attributed leaves.

 A composition is the list of its leaves in document order.  Standard base64 decoding is a
 parameter.
 */
module Attribution {
  import opened Wrappers
  import opened Text

  datatype Kind = Str | Int | Bytes | Bool

  datatype Tracer = Tracer(id: int, kind: Kind, value: string, raw: string)

  /** `path` is the display path; `pos` is the positional key that attribution and redaction use. */
  datatype Leaf = Leaf(doc: string, path: string, pos: string, value: string, tag: string)

  datatype Attributed = Attributed(doc: string, path: string, pos: string, tracers: seq<int>)

  datatype Failure = Structure(leaf: int) | NoTracer(leaf: int) | Unchanged(leaf: int)

  type Decoder = string -> Option<string>

  predicate Matches(t: Tracer, v: string, decode: Decoder) {
    match t.kind
    case Str => Contains(v, t.value)
    case Int => v == t.value
    case Bytes => v == t.value || (decode(v).Some? && Contains(decode(v).value, t.raw))
    case Bool => false
  }

  predicate Carries(v: string, tracers: seq<Tracer>, decode: Decoder) {
    exists k :: 0 <= k < |tracers| && Matches(tracers[k], v, decode)
  }

  /** The ids of the tracers a value carries, in the order of the tracers. */
  function Ids(v: string, tracers: seq<Tracer>, decode: Decoder): seq<int> {
    if tracers == [] then []
    else
      var last := tracers[|tracers| - 1];
      Ids(v, tracers[..|tracers| - 1], decode) + (if Matches(last, v, decode) then [last.id] else [])
  }

  lemma {:induction false} IdsCarried(v: string, tracers: seq<Tracer>, decode: Decoder)
    ensures Ids(v, tracers, decode) != [] <==> Carries(v, tracers, decode)
  {
    if tracers != [] {
      var n := |tracers| - 1;
      IdsCarried(v, tracers[..n], decode);
      if Carries(v, tracers[..n], decode) {
        var k :| 0 <= k < n && Matches(tracers[..n][k], v, decode);
        assert Matches(tracers[k], v, decode);
      }
    }
  }

  method Carried(v: string, tracers: seq<Tracer>, decode: Decoder) returns (ids: seq<int>)
    ensures ids == Ids(v, tracers, decode)
    ensures ids != [] <==> Carries(v, tracers, decode)
  {
    ids := [];
    for k := 0 to |tracers|
      invariant ids == Ids(v, tracers[..k], decode)
    {
      assert tracers[..k + 1][..k] == tracers[..k];
      if Matches(tracers[k], v, decode) {
        ids := ids + [tracers[k].id];
      }
    }
    assert tracers[..|tracers|] == tracers;
    IdsCarried(v, tracers, decode);
  }

  /* ---- shape ---- */

  predicate SameShape(a: seq<Leaf>, b: seq<Leaf>) {
    |a| == |b| && forall i :: 0 <= i < |a| ==> a[i].pos == b[i].pos
  }

  method CheckShape(a: seq<Leaf>, b: seq<Leaf>) returns (fails: seq<Failure>)
    ensures fails == [] <==> SameShape(a, b)
    ensures fails != [] ==> |fails| == 1 && fails[0].Structure?
  {
    if |a| != |b| {
      return [Structure(-1)];
    }
    for i := 0 to |a|
      invariant forall k :: 0 <= k < i ==> a[k].pos == b[k].pos
    {
      if a[i].pos != b[i].pos {
        return [Structure(i)];
      }
    }
    fails := [];
  }

  /* ---- attribution ---- */

  predicate Differs(r: Leaf, t: Leaf) {
    r.value != t.value || r.tag != t.tag
  }

  /** A leaf differs from the real composition exactly when it carries a tracer. */
  predicate Faithful(actual: seq<Leaf>, trace: seq<Leaf>, tracers: seq<Tracer>, decode: Decoder) {
    && SameShape(actual, trace)
    && forall i :: 0 <= i < |trace| ==>
         (Differs(actual[i], trace[i]) <==> Carries(trace[i].value, tracers, decode))
  }

  /** The leaves of the trace that carry a tracer, named as in the real composition. */
  function Carriers(actual: seq<Leaf>, trace: seq<Leaf>, tracers: seq<Tracer>, decode: Decoder): seq<Attributed>
    requires |actual| == |trace|
  {
    if trace == [] then []
    else
      var n := |trace| - 1;
      Carriers(actual[..n], trace[..n], tracers, decode)
      + if Carries(trace[n].value, tracers, decode)
        then [Attributed(actual[n].doc, actual[n].path, actual[n].pos, Ids(trace[n].value, tracers, decode))] else []
  }

  method Attribute(actual: seq<Leaf>, trace: seq<Leaf>, tracers: seq<Tracer>, decode: Decoder)
    returns (out: seq<Attributed>, fails: seq<Failure>)
    ensures fails == [] <==> Faithful(actual, trace, tracers, decode)
    ensures fails == [] ==> |actual| == |trace| && out == Carriers(actual, trace, tracers, decode)
  {
    var shape := CheckShape(actual, trace);
    if shape != [] {
      return [], shape;
    }
    out, fails := [], [];
    for i := 0 to |actual|
      invariant fails == [] <==> forall k :: 0 <= k < i ==>
                  (Differs(actual[k], trace[k]) <==> Carries(trace[k].value, tracers, decode))
      invariant fails == [] ==> out == Carriers(actual[..i], trace[..i], tracers, decode)
    {
      assert actual[..i + 1][..i] == actual[..i] && trace[..i + 1][..i] == trace[..i];
      var r, tr := actual[i], trace[i];
      var ids := Carried(tr.value, tracers, decode);
      var differs := r.value != tr.value || r.tag != tr.tag;
      if differs && ids == [] {
        fails := fails + [NoTracer(i)];
      } else if !differs && ids != [] {
        fails := fails + [Unchanged(i)];
      } else if differs {
        out := out + [Attributed(r.doc, r.path, r.pos, ids)];
      }
    }
    assert actual[..|actual|] == actual && trace[..|trace|] == trace;
  }

  /* ---- redaction ---- */

  function Positions(out: seq<Attributed>): set<string> {
    set k | 0 <= k < |out| :: out[k].pos
  }

  function RedactLeaf(l: Leaf, tokens: map<string, string>): (string, string, string) {
    if l.pos in tokens then (l.pos, tokens[l.pos], "!!str") else (l.pos, l.value, l.tag)
  }

  /** What a redacted composition shows of its leaves: position, value and tag. */
  function Redacted(leaves: seq<Leaf>, tokens: map<string, string>): (shown: seq<(string, string, string)>)
    ensures |shown| == |leaves|
    ensures forall i :: 0 <= i < |leaves| ==> shown[i] == RedactLeaf(leaves[i], tokens)
  {
    seq(|leaves|, i requires 0 <= i < |leaves| => RedactLeaf(leaves[i], tokens))
  }

  /** The positions of the trace's leaves that carry a tracer. */
  ghost function CarryingPositions(trace: seq<Leaf>, tracers: seq<Tracer>, decode: Decoder): set<string> {
    set i | 0 <= i < |trace| && Carries(trace[i].value, tracers, decode) :: trace[i].pos
  }

  /** The positions where two compositions of one shape differ. */
  ghost function DifferingPositions(actual: seq<Leaf>, trace: seq<Leaf>): set<string>
    requires |actual| == |trace|
  {
    set i | 0 <= i < |trace| && Differs(actual[i], trace[i]) :: trace[i].pos
  }

  lemma {:induction false} CarriersPositions(actual: seq<Leaf>, trace: seq<Leaf>, tracers: seq<Tracer>, decode: Decoder)
    requires SameShape(actual, trace)
    ensures Positions(Carriers(actual, trace, tracers, decode)) == CarryingPositions(trace, tracers, decode)
  {
    if trace != [] {
      var n := |trace| - 1;
      CarriersPositions(actual[..n], trace[..n], tracers, decode);
      var before := Carriers(actual[..n], trace[..n], tracers, decode);
      var here := if Carries(trace[n].value, tracers, decode)
        then [Attributed(actual[n].doc, actual[n].path, actual[n].pos, Ids(trace[n].value, tracers, decode))] else [];
      PositionsOfSum(before, here);
      assert here != [] ==> Positions(here) == {here[0].pos};
      assert Carriers(actual, trace, tracers, decode) == before + here;
      CarryingSplit(trace, tracers, decode);
    }
  }

  lemma PositionsOfSum(a: seq<Attributed>, b: seq<Attributed>)
    ensures Positions(a + b) == Positions(a) + Positions(b)
  {
    forall p | p in Positions(a) + Positions(b) ensures p in Positions(a + b) {
      if p in Positions(a) {
        var k :| 0 <= k < |a| && a[k].pos == p;
        assert (a + b)[k].pos == p;
      } else {
        var k :| 0 <= k < |b| && b[k].pos == p;
        assert (a + b)[|a| + k].pos == p;
      }
    }
  }

  lemma CarryingSplit(trace: seq<Leaf>, tracers: seq<Tracer>, decode: Decoder)
    requires trace != []
    ensures var n := |trace| - 1;
            CarryingPositions(trace, tracers, decode)
            == CarryingPositions(trace[..n], tracers, decode)
               + if Carries(trace[n].value, tracers, decode) then {trace[n].pos} else {}
  {
    var n := |trace| - 1;
    forall i | 0 <= i < n ensures trace[..n][i] == trace[i] {
    }
    forall p | p in CarryingPositions(trace[..n], tracers, decode) ensures p in CarryingPositions(trace, tracers, decode) {
      var i :| 0 <= i < n && Carries(trace[..n][i].value, tracers, decode) && trace[..n][i].pos == p;
      assert trace[i].pos == p;
    }
    forall p | p in CarryingPositions(trace, tracers, decode)
      ensures p in CarryingPositions(trace[..n], tracers, decode) || (Carries(trace[n].value, tracers, decode) && p == trace[n].pos)
    {
      var i :| 0 <= i <= n && Carries(trace[i].value, tracers, decode) && trace[i].pos == p;
      if i < n {
        assert trace[..n][i].pos == p;
      }
    }
  }

  /**
   When attribution reports no failure, the attributed positions are exactly those that carry a
   tracer and exactly those where the compositions differ, and redacting at least those positions
   shows the same leaves from the real composition as from the trace.
   */
  lemma RedactionHidesValues(actual: seq<Leaf>, trace: seq<Leaf>, tracers: seq<Tracer>, decode: Decoder,
                             tokens: map<string, string>)
    requires Faithful(actual, trace, tracers, decode)
    ensures var at := Positions(Carriers(actual, trace, tracers, decode));
            && at == CarryingPositions(trace, tracers, decode)
            && at == DifferingPositions(actual, trace)
            && (at <= tokens.Keys ==> Redacted(actual, tokens) == Redacted(trace, tokens))
  {
    CarriersPositions(actual, trace, tracers, decode);
    var at := Positions(Carriers(actual, trace, tracers, decode));
    if at <= tokens.Keys {
      forall i | 0 <= i < |trace| ensures RedactLeaf(actual[i], tokens) == RedactLeaf(trace[i], tokens) {
        if Differs(actual[i], trace[i]) {
          assert trace[i].pos in DifferingPositions(actual, trace);
        }
      }
    }
  }

  /** Two real compositions that the same trace attributes without failure, for whatever values,
      are attributed at the same positions and look the same once redacted. */
  lemma RedactionIndependentOfValues(a: seq<Leaf>, b: seq<Leaf>, trace: seq<Leaf>, tracers: seq<Tracer>, decode: Decoder,
                                     tokens: map<string, string>)
    requires Faithful(a, trace, tracers, decode) && Faithful(b, trace, tracers, decode)
    requires Positions(Carriers(a, trace, tracers, decode)) <= tokens.Keys
    ensures Positions(Carriers(a, trace, tracers, decode)) == Positions(Carriers(b, trace, tracers, decode))
    ensures Redacted(a, tokens) == Redacted(b, tokens)
  {
    RedactionHidesValues(a, trace, tracers, decode, tokens);
    RedactionHidesValues(b, trace, tracers, decode, tokens);
  }

  /** Attribution is not only sufficient: a token map that leaves out a differing position shows
      the difference, so no smaller set of positions would do. */
  lemma EveryAttributionIsNeeded(actual: seq<Leaf>, trace: seq<Leaf>, tracers: seq<Tracer>, decode: Decoder,
                                 tokens: map<string, string>)
    requires Faithful(actual, trace, tracers, decode)
    ensures Redacted(actual, tokens) == Redacted(trace, tokens) <==>
            Positions(Carriers(actual, trace, tracers, decode)) <= tokens.Keys
  {
    RedactionHidesValues(actual, trace, tracers, decode, tokens);
    if Redacted(actual, tokens) == Redacted(trace, tokens) {
      forall p | p in DifferingPositions(actual, trace) ensures p in tokens {
        var i :| 0 <= i < |trace| && Differs(actual[i], trace[i]) && trace[i].pos == p;
        assert Redacted(actual, tokens)[i] == Redacted(trace, tokens)[i];
      }
    }
  }

  /* ---- booleans ---- */

  /** The leaves where the trace and the flipped composition differ in value. */
  function Flipped(trace: seq<Leaf>, flip: seq<Leaf>, id: int): seq<Attributed>
    requires |trace| == |flip|
  {
    if trace == [] then []
    else
      var n := |trace| - 1;
      Flipped(trace[..n], flip[..n], id)
      + if trace[n].value != flip[n].value then [Attributed(trace[n].doc, trace[n].path, trace[n].pos, [id])] else []
  }

  method AttributeFlip(trace: seq<Leaf>, flip: seq<Leaf>, t: Tracer) returns (out: seq<Attributed>, fails: seq<Failure>)
    ensures fails == [] <==> SameShape(trace, flip)
    ensures fails == [] ==> |trace| == |flip| && out == Flipped(trace, flip, t.id)
  {
    var shape := CheckShape(trace, flip);
    if shape != [] {
      return [], shape;
    }
    out, fails := [], [];
    for i := 0 to |trace|
      invariant out == Flipped(trace[..i], flip[..i], t.id)
    {
      assert trace[..i + 1][..i] == trace[..i] && flip[..i + 1][..i] == flip[..i];
      if trace[i].value != flip[i].value {
        out := out + [Attributed(trace[i].doc, trace[i].path, trace[i].pos, [t.id])];
      }
    }
    assert trace[..|trace|] == trace && flip[..|flip|] == flip;
  }

  lemma {:induction false} FlippedAt(trace: seq<Leaf>, flip: seq<Leaf>, id: int, p: string)
    requires SameShape(trace, flip)
    ensures p in Positions(Flipped(trace, flip, id)) <==>
            exists i :: 0 <= i < |trace| && trace[i].value != flip[i].value && trace[i].pos == p
  {
    if trace != [] {
      var n := |trace| - 1;
      FlippedAt(trace[..n], flip[..n], id, p);
      var before := Flipped(trace[..n], flip[..n], id);
      var here := if trace[n].value != flip[n].value then [Attributed(trace[n].doc, trace[n].path, trace[n].pos, [id])] else [];
      PositionsOfSum(before, here);
      assert Flipped(trace, flip, id) == before + here;
      assert here != [] ==> Positions(here) == {here[0].pos};
      if i :| 0 <= i < |trace| && trace[i].value != flip[i].value && trace[i].pos == p {
        if i < n {
          assert trace[..n][i].value != flip[..n][i].value && trace[..n][i].pos == p;
        }
      }
      if j :| 0 <= j < n && trace[..n][j].value != flip[..n][j].value && trace[..n][j].pos == p {
        assert trace[j].value != flip[j].value && trace[j].pos == p;
      }
    }
  }

  /** Some leaf outside the replaced positions differs in its tag alone. */
  predicate TagOnly(trace: seq<Leaf>, flip: seq<Leaf>, tokens: map<string, string>)
    requires |trace| == |flip|
  {
    exists i :: 0 <= i < |trace| && trace[i].pos !in tokens && trace[i].value == flip[i].value && trace[i].tag != flip[i].tag
  }

  /**
   Flip attribution compares values and not tags.  So replacing what it attributes hides the
   boolean exactly when no other leaf changes its tag under the flip and keeps its value.
   */
  lemma FlipHidesUnlessTagOnly(trace: seq<Leaf>, flip: seq<Leaf>, id: int, tokens: map<string, string>)
    requires SameShape(trace, flip) && Positions(Flipped(trace, flip, id)) <= tokens.Keys
    ensures Redacted(trace, tokens) == Redacted(flip, tokens) <==> !TagOnly(trace, flip, tokens)
  {
    forall i | 0 <= i < |trace| && trace[i].value != flip[i].value ensures trace[i].pos in tokens {
      FlippedAt(trace, flip, id, trace[i].pos);
    }
    if TagOnly(trace, flip, tokens) {
      var i :| 0 <= i < |trace| && trace[i].pos !in tokens && trace[i].value == flip[i].value && trace[i].tag != flip[i].tag;
      assert Redacted(trace, tokens)[i] != Redacted(flip, tokens)[i];
    }
  }

  /** A flip that turns the boolean `true` into the string "true" at one leaf is not attributed and
      shows. */
  lemma TagOnlyFlipShows()
    ensures var trace := [Leaf("v1alpha1", "a", "v1alpha1:a", "true", "!!bool")];
            var flip := [Leaf("v1alpha1", "a", "v1alpha1:a", "true", "!!str")];
            && SameShape(trace, flip) && Flipped(trace, flip, 4) == []
            && Redacted(trace, map[]) != Redacted(flip, map[])
  {
    var trace := [Leaf("v1alpha1", "a", "v1alpha1:a", "true", "!!bool")];
    var flip := [Leaf("v1alpha1", "a", "v1alpha1:a", "true", "!!str")];
    assert trace[..0] == [] && flip[..0] == [];
    assert Redacted(trace, map[])[0] != Redacted(flip, map[])[0];
  }
}
