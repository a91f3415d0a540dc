/** `families/split_plan.py`: how decoder layers are dealt out to slices. */
module SplitPlan {
  import opened Common
  import Text

  datatype Kind = Embedding | Decoder | LmHead

  /** Layer ranges are half-open. */
  datatype Slice = Slice(index: nat, name: string, kind: Kind, range: Option<(int, int)>)

  datatype Plan = Plan(layers: int, slices: seq<Slice>, splitEmbedding: bool, splitHead: bool)

  datatype Refusal = NoLayers | NoSlices | TooManySlices

  predicate Owns(s: Slice, layer: int) {
    s.range.Some? && s.range.value.0 <= layer < s.range.value.1
  }

  /** The ranges follow one another without gap or overlap from `from` to `to`; slices without a range own nothing. */
  predicate Tile(slices: seq<Slice>, from: int, to: int) {
    if slices == [] then from == to
    else
      var front, last := slices[..|slices| - 1], slices[|slices| - 1];
      if last.range.None? then Tile(front, from, to)
      else last.range.value.0 <= last.range.value.1 == to && Tile(front, from, last.range.value.0)
  }

  function Distributed(layers: int, splitHead: bool): int {
    layers - if splitHead then 1 else 0
  }

  /** One more than the base share for the first `remainder` decoders. */
  function SizeOf(base: nat, remainder: nat, i: nat): nat {
    base + if i < remainder then 1 else 0
  }

  function Width(count: nat): nat {
    var digits := if count == 0 then 0 else |Text.Decimal(count - 1)|;
    if digits > 2 then digits else 2
  }

  function DecoderName(count: nat, i: nat): string {
    "decoder_" + Text.ZeroPadded(i, Width(count))
  }

  function Naming(count: nat): nat -> string {
    (i: nat) => DecoderName(count, i)
  }

  /** Where decoder i sits among the slices. */
  function Offset(splitEmbedding: bool): nat {
    if splitEmbedding then 1 else 0
  }

  predicate IsDecoder(s: Slice, base: nat, remainder: nat, i: nat, name: string)
  {
    && s.kind == Decoder && s.name == name
    && s.range == Some((Start(base, remainder, i), Start(base, remainder, i) + SizeOf(base, remainder, i)))
  }

  /** From `offset` on, one decoder slice after the other. */
  predicate FairlyDealt(slices: seq<Slice>, base: nat, remainder: nat, offset: nat, upTo: nat, name: nat -> string)
  {
    && offset + upTo <= |slices|
    && forall j :: offset <= j < offset + upTo ==> IsDecoder(slices[j], base, remainder, j - offset, name(j - offset))
  }

  /** Where decoder i starts: after all before it. */
  function Start(base: nat, remainder: nat, i: nat): nat {
    if i == 0 then 0 else Start(base, remainder, i - 1) + SizeOf(base, remainder, i - 1)
  }

  lemma {:induction false} StartIs(base: nat, remainder: nat, i: nat)
    ensures Start(base, remainder, i) == i * base + if i < remainder then i else remainder
  {
    if i > 0 {
      StartIs(base, remainder, i - 1);
      assert i * base == (i - 1) * base + base;
    }
  }

  /** Nothing is left over once every decoder has its share. */
  lemma SharesAddUp(distributed: nat, count: nat)
    requires count > 0
    ensures Start(distributed / count, distributed % count, count) == distributed
  {
    StartIs(distributed / count, distributed % count, count);
    assert distributed == count * (distributed / count) + distributed % count;
  }

  lemma TileOneMore(slices: seq<Slice>, s: Slice, from: int, to: int)
    requires s.range.Some? && s.range.value.0 <= s.range.value.1 == to && Tile(slices, from, s.range.value.0)
    ensures Tile(slices + [s], from, to)
  {
    assert (slices + [s])[..|slices|] == slices;
  }

  predicate Indexed(slices: seq<Slice>) {
    forall i :: 0 <= i < |slices| ==> slices[i].index == i
  }

  /** `build_split_plan`. */
  method Build(layers: int, count: int, splitEmbedding: bool, splitHead: bool) returns (r: Result<Plan, Refusal>)
    ensures r.Ok? <==> 0 < layers && 0 < count && count + (if splitHead then 1 else 0) <= layers
    ensures r.Err? ==> r.error == if layers <= 0 then NoLayers else if count <= 0 then NoSlices else TooManySlices
    ensures r.Ok? ==> IsPlan(r.value, layers, count, splitEmbedding, splitHead)
  {
    if layers <= 0 { return Err(NoLayers); }
    if count <= 0 { return Err(NoSlices); }
    var distributed := layers - if splitHead then 1 else 0;
    if count > distributed { return Err(TooManySlices); }

    SharesAddUp(distributed, count);
    var slices := Deal(layers, distributed, count, distributed / count, distributed % count, splitEmbedding, splitHead);
    r := Ok(Plan(layers, slices, splitEmbedding, splitHead));
  }

  method Deal(layers: int, distributed: nat, count: nat, base: nat, remainder: nat, splitEmbedding: bool,
              splitHead: bool)
    returns (slices: seq<Slice>)
    requires Start(base, remainder, count) == distributed == Distributed(layers, splitHead)
    ensures Shape(slices, layers, count, base, remainder, splitEmbedding, splitHead)
  {
    var front: seq<Slice> := [];
    if splitEmbedding { front := [Slice(0, "embedding", Embedding, None)]; }
    slices := DealDecoders(front, base, remainder, count, Naming(count));
    DealtAll(front, slices, base, remainder, count);
    assert splitEmbedding ==> slices[..|front|][0] == front[0];
    if splitHead {
      var head := Slice(|slices|, "lm_head", LmHead, Some((distributed, layers)));
      HeadFits(slices, head, layers, count, base, remainder, splitEmbedding);
      slices := slices + [head];
    }
  }

  lemma HeadFits(slices: seq<Slice>, head: Slice, layers: int, count: nat, base: nat, remainder: nat,
                 splitEmbedding: bool)
    requires Shape(slices, layers - 1, count, base, remainder, splitEmbedding, false)
    requires head == Slice(|slices|, "lm_head", LmHead, Some((layers - 1, layers)))
    ensures Shape(slices + [head], layers, count, base, remainder, splitEmbedding, true)
  {
    TileOneMore(slices, head, 0, layers);
    StillDealt(slices, head, base, remainder, Offset(splitEmbedding), count, Naming(count));
  }

  /** Embedding, decoders, head, in that order, covering all layers. */
  predicate Shape(slices: seq<Slice>, layers: int, count: nat, base: nat, remainder: nat, splitEmbedding: bool,
                  splitHead: bool) {
    && |slices| == Offset(splitEmbedding) + count + (if splitHead then 1 else 0)
    && Indexed(slices) && Tile(slices, 0, layers)
    && FairlyDealt(slices, base, remainder, Offset(splitEmbedding), count, Naming(count))
    && (splitEmbedding ==> slices[0] == Slice(0, "embedding", Embedding, None))
    && (splitHead ==> slices[|slices| - 1] == Slice(|slices| - 1, "lm_head", LmHead, Some((layers - 1, layers))))
  }

  lemma StillDealt(slices: seq<Slice>, s: Slice, base: nat, remainder: nat, offset: nat, count: nat,
                   name: nat -> string)
    requires FairlyDealt(slices, base, remainder, offset, count, name) && Indexed(slices) && s.index == |slices|
    ensures FairlyDealt(slices + [s], base, remainder, offset, count, name) && Indexed(slices + [s])
  {
  }

  lemma DealtAll(front: seq<Slice>, slices: seq<Slice>, base: nat, remainder: nat, count: nat)
    requires |front| <= 1 && (front != [] ==> front[0].range.None?)
    requires |slices| == |front| + count && slices[..|front|] == front
    requires FairlyDealt(slices, base, remainder, |front|, count, Naming(count))
    ensures Tile(slices, 0, Start(base, remainder, count))
  {
    NoOwnersYet(front);
    var n := |front|;
    DealtTile(slices, base, remainder, n, count, Naming(count));
    assert n + count == |slices| && slices[..n + count] == slices;
  }

  /** The loop of `build_split_plan`. */
  method DealDecoders(front: seq<Slice>, base: nat, remainder: nat, count: nat, name: nat -> string)
    returns (slices: seq<Slice>)
    requires Indexed(front)
    ensures |slices| == |front| + count && slices[..|front|] == front && Indexed(slices)
    ensures FairlyDealt(slices, base, remainder, |front|, count, name)
  {
    slices := front;
    var start := 0;
    var i := 0;
    while i < count
      invariant 0 <= i <= count && |slices| == |front| + i && slices[..|front|] == front
      invariant start == Start(base, remainder, i) && Indexed(slices)
      invariant FairlyDealt(slices, base, remainder, |front|, i, name)
    {
      var end := start + base + if i < remainder then 1 else 0;
      slices := slices + [Slice(|slices|, name(i), Decoder, Some((start, end)))];
      start := end;
      i := i + 1;
    }
  }

  /** Dealt decoders leave no gap and do not overlap. */
  lemma {:induction false} DealtTile(slices: seq<Slice>, base: nat, remainder: nat, offset: nat, upTo: nat,
                                     name: nat -> string)
    requires FairlyDealt(slices, base, remainder, offset, upTo, name) && Tile(slices[..offset], 0, 0)
    ensures Tile(slices[..offset + upTo], 0, Start(base, remainder, upTo))
  {
    if upTo > 0 {
      DealtTile(slices, base, remainder, offset, upTo - 1, name);
      var last := slices[offset + upTo - 1];
      assert IsDecoder(last, base, remainder, upTo - 1, name(upTo - 1));
      assert slices[..offset + upTo] == slices[..offset + upTo - 1] + [last];
      TileOneMore(slices[..offset + upTo - 1], last, 0, Start(base, remainder, upTo));
    }
  }

  lemma NoOwnersYet(slices: seq<Slice>)
    requires |slices| <= 1 && forall i :: 0 <= i < |slices| ==> slices[i].range.None?
    ensures Tile(slices, 0, 0)
  {
    assert slices != [] ==> slices[..0] == [];
  }

  /** What an accepted request gives. */
  predicate IsPlan(p: Plan, layers: int, count: int, splitEmbedding: bool, splitHead: bool) {
    && 0 < count <= Distributed(layers, splitHead)
    && p.layers == layers && p.splitEmbedding == splitEmbedding && p.splitHead == splitHead
    && Shape(p.slices, layers, count, Distributed(layers, splitHead) / count, Distributed(layers, splitHead) % count,
             splitEmbedding, splitHead)
  }

  // ---------------------------------------------------------- what it means

  /** Sizes differ by at most one, larger first, and no decoder slice is empty. */
  lemma SizesAreBalanced(distributed: nat, count: nat, i: nat, j: nat)
    requires 0 < count <= distributed && i <= j < count
    ensures var base, remainder := distributed / count, distributed % count;
            0 < SizeOf(base, remainder, j) <= SizeOf(base, remainder, i) <= SizeOf(base, remainder, j) + 1
  {
    assert distributed / count > 0;
  }

  lemma {:induction false} TileOwners(slices: seq<Slice>, from: int, to: int, layer: int)
    requires Tile(slices, from, to)
    ensures from <= to
    ensures from <= layer < to <==> exists a :: 0 <= a < |slices| && Owns(slices[a], layer)
    ensures forall a, b :: 0 <= a < b < |slices| && Owns(slices[a], layer) ==> !Owns(slices[b], layer)
  {
    if slices != [] {
      var front, last := slices[..|slices| - 1], slices[|slices| - 1];
      TileOwners(front, from, if last.range.None? then to else last.range.value.0, layer);
      assert forall a :: 0 <= a < |front| ==> front[a] == slices[a];
      if Owns(last, layer) { assert slices[|slices| - 1] == last; }
      if a :| 0 <= a < |front| && Owns(front[a], layer) { assert Owns(slices[a], layer); }
    }
  }

  /** Slices partition the layers: each layer has exactly one owner, and nothing outside is owned. */
  lemma SlicesPartitionLayers(p: Plan, layers: int, count: int, splitEmbedding: bool, splitHead: bool, layer: int)
    requires IsPlan(p, layers, count, splitEmbedding, splitHead)
    ensures 0 <= layer < layers <==> exists a :: 0 <= a < |p.slices| && Owns(p.slices[a], layer)
    ensures forall a, b :: 0 <= a < b < |p.slices| && Owns(p.slices[a], layer) ==> !Owns(p.slices[b], layer)
  {
    TileOwners(p.slices, 0, layers, layer);
  }

  /** `folded_lm_head_layer`: the search loop finds the last layer exactly when the head is split off. */
  method FoldedHeadLayer(p: Plan, ghost count: int) returns (layer: Option<int>)
    requires IsPlan(p, p.layers, count, p.splitEmbedding, p.splitHead)
    ensures layer == if p.splitHead then Some(p.layers - 1) else None
  {
    var i := 0;
    while i < |p.slices|
      invariant 0 <= i <= |p.slices|
      invariant forall j :: 0 <= j < i ==> p.slices[j].kind != LmHead
    {
      if p.slices[i].kind == LmHead && p.slices[i].range.Some? {
        KindsByPosition(p, count, i);
        return Some(p.slices[i].range.value.0);
      }
      KindsByPosition(p, count, i);
      i := i + 1;
    }
    layer := None;
  }

  lemma KindsByPosition(p: Plan, count: int, i: nat)
    requires IsPlan(p, p.layers, count, p.splitEmbedding, p.splitHead) && i < |p.slices|
    ensures p.slices[i].kind == KindAt(p.splitEmbedding, count, i)
    ensures p.slices[i].kind == LmHead ==> p.splitHead && p.slices[i].range == Some((p.layers - 1, p.layers))
  {
    var distributed := Distributed(p.layers, p.splitHead);
    KindsInShape(p.slices, p.layers, count, distributed / count, distributed % count, p.splitEmbedding, p.splitHead, i);
  }

  function KindAt(splitEmbedding: bool, count: nat, i: nat): Kind {
    if i < Offset(splitEmbedding) then Embedding else if i < Offset(splitEmbedding) + count then Decoder else LmHead
  }

  lemma KindsInShape(slices: seq<Slice>, layers: int, count: nat, base: nat, remainder: nat, splitEmbedding: bool,
                     splitHead: bool, i: nat)
    requires Shape(slices, layers, count, base, remainder, splitEmbedding, splitHead) && i < |slices|
    ensures slices[i].kind == KindAt(splitEmbedding, count, i)
    ensures slices[i].kind == LmHead ==> splitHead && slices[i].range == Some((layers - 1, layers))
  {
    var offset := Offset(splitEmbedding);
    if offset <= i < offset + count {
      assert IsDecoder(slices[i], base, remainder, i - offset, Naming(count)(i - offset));
    }
  }

  // -------------------------------------------------------- names in order

  /** The order of strings by code point. */
  predicate Before(s: string, t: string) {
    t != "" && (s == "" || s[0] < t[0] || (s[0] == t[0] && Before(s[1..], t[1..])))
  }

  lemma {:induction false} BeforeWithPrefix(prefix: string, s: string, t: string)
    ensures Before(prefix + s, prefix + t) <==> Before(s, t)
  {
    if prefix == "" {
      assert prefix + s == s && prefix + t == t;
    } else {
      BeforeWithPrefix(prefix[1..], s, t);
      assert (prefix + s)[1..] == prefix[1..] + s && (prefix + t)[1..] == prefix[1..] + t;
    }
  }

  lemma {:induction false} BeforeAtEnd(s: string, t: string, c: char, d: char)
    requires |s| == |t|
    ensures Before(s + [c], t + [d]) <==> Before(s, t) || (s == t && c < d)
  {
    if s != "" {
      BeforeAtEnd(s[1..], t[1..], c, d);
      assert (s + [c])[1..] == s[1..] + [c] && (t + [d])[1..] == t[1..] + [d];
      assert s == [s[0]] + s[1..] && t == [t[0]] + t[1..];
    }
  }

  /** For digit strings of one length, order of text is order of numbers. */
  lemma {:induction false} TextOrderIsNumericOrder(s: string, t: string)
    requires |s| == |t| && Text.AllDigits(s) && Text.AllDigits(t)
    ensures Before(s, t) <==> Text.NatOf(s) < Text.NatOf(t)
    ensures s == t <==> Text.NatOf(s) == Text.NatOf(t)
  {
    if s != "" {
      var n := |s| - 1;
      TextOrderIsNumericOrder(s[..n], t[..n]);
      BeforeAtEnd(s[..n], t[..n], s[n], t[n]);
      assert s == s[..n] + [s[n]] && t == t[..n] + [t[n]];
    }
  }

  lemma {:induction false} PaddingKeepsValue(zeros: nat, s: string)
    requires Text.AllDigits(s)
    ensures Text.AllDigits(Text.Zeros(zeros) + s) && Text.NatOf(Text.Zeros(zeros) + s) == Text.NatOf(s)
    decreases |s|, zeros
  {
    var t := Text.Zeros(zeros) + s;
    if s != "" {
      PaddingKeepsValue(zeros, s[..|s| - 1]);
      assert t[..|t| - 1] == Text.Zeros(zeros) + s[..|s| - 1];
    } else if zeros > 0 {
      PaddingKeepsValue(zeros - 1, "");
      assert t[..|t| - 1] == Text.Zeros(zeros - 1) + "";
    }
  }

  lemma {:induction false} LongerIsLarger(a: nat, b: nat)
    requires a <= b
    ensures |Text.Decimal(a)| <= |Text.Decimal(b)|
  {
    if a >= 10 { LongerIsLarger(a / 10, b / 10); }
  }

  lemma PaddedIsNumber(count: nat, i: nat)
    requires i < count
    ensures var s := Text.ZeroPadded(i, Width(count));
            |s| == Width(count) && Text.AllDigits(s) && Text.NatOf(s) == i
  {
    LongerIsLarger(i, count - 1);
    Text.DecimalRoundTrip(i);
    PaddingKeepsValue(Width(count) - |Text.Decimal(i)|, Text.Decimal(i));
  }

  /** Every decoder name of a plan ends with its number, in digits of one length, and at least two of them. */
  lemma NamesArePadded(count: nat, i: nat)
    requires i < count
    ensures var name := DecoderName(count, i);
            && |name| == |DecoderName(count, count - 1)| >= 10 && name[..8] == "decoder_"
            && Text.AllDigits(name[8..]) && Text.NatOf(name[8..]) == i
            && (|name| > 10 ==> Text.Decimal(count - 1) == DecoderName(count, count - 1)[8..])
  {
    PaddedIsNumber(count, i);
    PaddedIsNumber(count, count - 1);
    var s := Text.ZeroPadded(i, Width(count));
    assert ("decoder_" + s)[8..] == s && ("decoder_" + s)[..8] == "decoder_";
    var last := Text.ZeroPadded(count - 1, Width(count));
    assert ("decoder_" + last)[8..] == last;
  }

  /** Decoder names are distinct and sort, as text, in the order of the decoders. */
  lemma NamesSortInOrder(count: nat, i: nat, j: nat)
    requires i < count && j < count
    ensures Before(DecoderName(count, i), DecoderName(count, j)) <==> i < j
    ensures DecoderName(count, i) == DecoderName(count, j) <==> i == j
  {
    var s, t := Text.ZeroPadded(i, Width(count)), Text.ZeroPadded(j, Width(count));
    PaddedIsNumber(count, i);
    PaddedIsNumber(count, j);
    TextOrderIsNumericOrder(s, t);
    BeforeWithPrefix("decoder_", s, t);
    assert ("decoder_" + s)[8..] == s && ("decoder_" + t)[8..] == t;
  }

  // ----------------------------------------------------- captured boundaries

  datatype Boundary = Boundary(name: string, start: int, end: int)

  /** `_boundaries_from_split_plan`: every slice that owns layers. */
  function Boundaries(slices: seq<Slice>): seq<Boundary> {
    if slices == [] then []
    else
      var last := slices[|slices| - 1];
      Boundaries(slices[..|slices| - 1]) +
      if last.range.Some? then [Boundary(last.name, last.range.value.0, last.range.value.1)] else []
  }

  /** Boundaries that follow one another from `from` to `to`. */
  predicate Chain(boundaries: seq<Boundary>, from: int, to: int) {
    if boundaries == [] then from == to
    else
      var last := boundaries[|boundaries| - 1];
      last.start <= last.end == to && Chain(boundaries[..|boundaries| - 1], from, last.start)
  }

  lemma {:induction false} BoundariesChain(slices: seq<Slice>, from: int, to: int)
    requires Tile(slices, from, to)
    ensures Chain(Boundaries(slices), from, to)
  {
    if slices != [] {
      var front, last := slices[..|slices| - 1], slices[|slices| - 1];
      BoundariesChain(front, from, if last.range.None? then to else last.range.value.0);
      var b := Boundaries(slices);
      if last.range.Some? { assert b[..|b| - 1] == Boundaries(front); } else { assert b == Boundaries(front); }
    }
  }

  /** The captured boundaries cover the model layer by layer, in order, head included. */
  lemma BoundariesCoverModel(p: Plan, layers: int, count: int, splitEmbedding: bool, splitHead: bool)
    requires IsPlan(p, layers, count, splitEmbedding, splitHead)
    ensures Chain(Boundaries(p.slices), 0, layers)
  {
    BoundariesChain(p.slices, 0, layers);
  }
}
