/** Building the manifest: the range checks of a safetensors header, the two expert layouts,
    and the validation that the built manifest has to pass. */
module ManifestBuild {
  import L = LruPolicy
  import S = ExpertStore
  import R = Repack

  datatype Result<+T> = Ok(value: T) | ValueError

  // ----- safetensors headers -----

  const MAX_HEADER_SIZE := 100 * 1024 * 1024

  datatype Info = Info(dtype: string, shape: seq<int>, dataOffset: int, nbytes: int)
  datatype RawTensor = Malformed | Raw(dtype: string, shape: seq<int>, start: int, end: int)
  datatype Entry = Entry(name: string, raw: RawTensor)

  /** The size of one element; zero for an unsupported dtype. */
  function DtypeBytes(dtype: string): (r: nat) {
    if dtype in {"BOOL", "I8", "U8", "F8_E4M3FN", "F8_E4M3FNUZ", "F8_E5M2", "F8_E5M2FNUZ"} then 1
    else if dtype in {"I16", "U16", "F16", "BF16"} then 2
    else if dtype in {"I32", "U32", "F32"} then 4
    else if dtype in {"I64", "U64", "F64"} then 8
    else 0
  }

  /** The element size is the width in the dtype's name, eight bits to a byte: sixteen,
      thirty-two and sixty-four at its end, and one byte for every other supported name. */
  lemma DtypeBytesFollowTheName(dtype: string)
    ensures DtypeBytes(dtype) != 0 <==>
            dtype in {"BOOL", "I8", "I16", "I32", "I64", "U8", "U16", "U32", "U64", "F16", "BF16", "F32", "F64",
                      "F8_E4M3FN", "F8_E4M3FNUZ", "F8_E5M2", "F8_E5M2FNUZ"}
    ensures DtypeBytes(dtype) != 0 ==>
            var n := |dtype|;
            n >= 2 && DtypeBytes(dtype) * 8 ==
              if dtype[n - 2..] == "16" then 16 else if dtype[n - 2..] == "32" then 32
              else if dtype[n - 2..] == "64" then 64 else 8
  {
  }

  function Product(values: seq<int>): int {
    if values == [] then 1 else values[0] * Product(values[1..])
  }

  method ProductOf(values: seq<int>) returns (result: int)
    ensures result == Product(values)
  {
    result := 1;
    assert values[0..] == values;
    for i := 0 to |values|
      invariant result * Product(values[i..]) == Product(values)
    {
      assert values[i..][0] == values[i] && values[i..][1..] == values[i + 1..];
      TimesAssociates(result, values[i], Product(values[i + 1..]));
      result := result * values[i];
    }
    assert values[|values|..] == [];
  }

  lemma TimesAssociates(a: int, b: int, c: int)
    ensures a * (b * c) == (a * b) * c
  {
  }

  predicate HeaderSizeOk(fileSize: int, headerSize: int) {
    0 < headerSize <= MAX_HEADER_SIZE && 8 + headerSize <= fileSize
  }

  /** What the reader demands of one tensor entry. */
  predicate EntryOk(raw: RawTensor, dataStart: int, fileSize: int) {
    && raw.Raw? && DtypeBytes(raw.dtype) > 0 && (forall d :: d in raw.shape ==> d > 0)
    && 0 <= raw.start <= raw.end && raw.end - raw.start == Product(raw.shape) * DtypeBytes(raw.dtype)
    && dataStart + raw.end <= fileSize
  }

  /** What the rest of the system may then rely on. */
  ghost predicate InRange(info: Info, fileSize: int) {
    && DtypeBytes(info.dtype) > 0 && (forall d :: d in info.shape ==> d > 0)
    && info.nbytes == Product(info.shape) * DtypeBytes(info.dtype) && info.nbytes > 0
    && 8 < info.dataOffset && info.dataOffset + info.nbytes <= fileSize
  }

  lemma {:induction false} ProductIsPositive(values: seq<int>)
    requires forall d :: d in values ==> d > 0
    ensures Product(values) > 0
  {
    if values != [] {
      var first, rest := values[0], Product(values[1..]);
      assert first in values;
      forall d | d in values[1..] ensures d > 0 {
        assert d in values;
      }
      ProductIsPositive(values[1..]);
      TimesPositive(first, rest);
    }
  }

  lemma TimesPositive(a: int, b: int)
    requires a > 0 && b > 0
    ensures a * b > 0
  {
  }

  /** `info` is what entry `j`, the last one of its name among the first `n`, says. */
  ghost predicate IsRecorded(entries: seq<Entry>, n: nat, dataStart: int, name: string, info: Info, j: nat) {
    && j < n <= |entries| && entries[j].name == name != "__metadata__" && entries[j].raw.Raw?
    && (var raw := entries[j].raw;
        info == Info(raw.dtype, raw.shape, dataStart + raw.start, raw.end - raw.start))
    && forall k :: j < k < n ==> entries[k].name != name
  }

  ghost predicate HasRecord(entries: seq<Entry>, n: nat, dataStart: int, name: string, info: Info) {
    exists j :: IsRecorded(entries, n, dataStart, name, info, j)
  }

  ghost predicate AllRecorded(entries: seq<Entry>, n: nat, dataStart: int, tensors: map<string, Info>) {
    forall name :: name in tensors ==> HasRecord(entries, n, dataStart, name, tensors[name])
  }

  lemma NothingRecorded(entries: seq<Entry>, dataStart: int)
    ensures AllRecorded(entries, 0, dataStart, map[])
  {
  }

  lemma RecordNext(entries: seq<Entry>, n: nat, dataStart: int, tensors: map<string, Info>)
    requires n < |entries| && AllRecorded(entries, n, dataStart, tensors) && entries[n].name !in tensors
    ensures AllRecorded(entries, n + 1, dataStart, tensors)
  {
    forall name | name in tensors ensures HasRecord(entries, n + 1, dataStart, name, tensors[name]) {
      var j :| IsRecorded(entries, n, dataStart, name, tensors[name], j);
      assert IsRecorded(entries, n + 1, dataStart, name, tensors[name], j);
    }
  }

  lemma RecordEntry(entries: seq<Entry>, n: nat, dataStart: int, tensors: map<string, Info>, info: Info)
    requires n < |entries| && AllRecorded(entries, n, dataStart, tensors)
    requires entries[n].name != "__metadata__" && entries[n].raw.Raw?
    requires info == Info(entries[n].raw.dtype, entries[n].raw.shape, dataStart + entries[n].raw.start,
                          entries[n].raw.end - entries[n].raw.start)
    ensures AllRecorded(entries, n + 1, dataStart, tensors[entries[n].name := info])
  {
    var after := tensors[entries[n].name := info];
    forall name | name in after ensures HasRecord(entries, n + 1, dataStart, name, after[name]) {
      if name == entries[n].name {
        assert IsRecorded(entries, n + 1, dataStart, name, info, n);
      } else {
        var j :| IsRecorded(entries, n, dataStart, name, tensors[name], j);
        assert IsRecorded(entries, n + 1, dataStart, name, tensors[name], j);
      }
    }
  }

  /** `SafeTensorHeader.read` on a parsed header: accepted exactly when the size and every
      tensor entry are in order and there is a tensor; then exactly the named tensors are
      recorded, each with the range its entry gives, and every range lies in the file. */
  method ReadHeader(fileSize: int, headerSize: int, entries: seq<Entry>) returns (r: Result<map<string, Info>>)
    ensures r.Ok? <==>
            && HeaderSizeOk(fileSize, headerSize)
            && (forall e :: e in entries && e.name != "__metadata__" ==> EntryOk(e.raw, 8 + headerSize, fileSize))
            && (exists e :: e in entries && e.name != "__metadata__")
    ensures r.Ok? ==> forall name :: name in r.value ==> InRange(r.value[name], fileSize)
    ensures r.Ok? ==> forall e :: e in entries && e.name != "__metadata__" ==> e.name in r.value
    ensures r.Ok? ==> AllRecorded(entries, |entries|, 8 + headerSize, r.value)
  {
    hide AllRecorded; hide IsRecorded;
    if headerSize <= 0 || headerSize > MAX_HEADER_SIZE || 8 + headerSize > fileSize {
      return ValueError;
    }
    var dataStart, tensors: map<string, Info> := 8 + headerSize, map[];
    NothingRecorded(entries, dataStart);
    for i := 0 to |entries|
      invariant forall j :: 0 <= j < i && entries[j].name != "__metadata__" ==>
                  EntryOk(entries[j].raw, dataStart, fileSize) && entries[j].name in tensors
      invariant tensors != map[] <==> exists j :: 0 <= j < i && entries[j].name != "__metadata__"
      invariant forall name :: name in tensors ==> InRange(tensors[name], fileSize)
      invariant "__metadata__" !in tensors && AllRecorded(entries, i, dataStart, tensors)
    {
      var name, raw := entries[i].name, entries[i].raw;
      if name != "__metadata__" {
        if raw.Malformed? {
          return ValueError;
        }
        if DtypeBytes(raw.dtype) == 0 {
          return ValueError;
        }
        if (exists d :: d in raw.shape && d <= 0) || raw.start < 0 || raw.end < raw.start {
          return ValueError;
        }
        var expected := ProductOf(raw.shape);
        if raw.end - raw.start != expected * DtypeBytes(raw.dtype) || dataStart + raw.end > fileSize {
          return ValueError;
        }
        ProductIsPositive(raw.shape);
        var info := Info(raw.dtype, raw.shape, dataStart + raw.start, raw.end - raw.start);
        RecordEntry(entries, i, dataStart, tensors, info);
        tensors := tensors[name := info];
      } else {
        RecordNext(entries, i, dataStart, tensors);
      }
    }
    if tensors == map[] {
      return ValueError;
    }
    r := Ok(tensors);
  }

  // ----- the two layouts -----

  /** In alphabetical order, as the tensors of a bundle are. */
  datatype Projection = DownProj | GateProj | UpProj
  datatype Part = Bias | Biases | Scales | Weight
  datatype Field = Field(projection: Projection, part: Part)

  datatype Location = Location(file: string, name: string, info: Info)

  const FIELDS: seq<Field> :=
    [Field(DownProj, Bias), Field(DownProj, Biases), Field(DownProj, Scales), Field(DownProj, Weight),
     Field(GateProj, Bias), Field(GateProj, Biases), Field(GateProj, Scales), Field(GateProj, Weight),
     Field(UpProj, Bias), Field(UpProj, Biases), Field(UpProj, Scales), Field(UpProj, Weight)]

  function ProjectionName(p: Projection): string {
    match p case DownProj => "down" case GateProj => "gate" case UpProj => "up"
  }

  function PartName(part: Part): string {
    match part case Bias => "bias" case Biases => "biases" case Scales => "scales" case Weight => "weight"
  }

  /** `_role`. */
  function Role(f: Field): string {
    ProjectionName(f.projection) + "_" + PartName(f.part)
  }

  lemma RoleIsInjective(a: Field, b: Field)
    requires Role(a) == Role(b)
    ensures a == b
  {
    assert Role(a)[0] == ProjectionName(a.projection)[0] && Role(b)[0] == ProjectionName(b.projection)[0];
    assert a.projection == b.projection;
    var n := |ProjectionName(a.projection)| + 1;
    assert Role(a)[n..] == PartName(a.part) && Role(b)[n..] == PartName(b.part);
    assert PartName(a.part)[0] == PartName(b.part)[0] && |PartName(a.part)| == |PartName(b.part)|;
  }

  function MakeBundle(key: L.Key, spans: seq<S.Span>): S.Bundle {
    S.Bundle(key, spans, S.SumBytes(spans))
  }

  predicate HasWeights<T>(fields: map<Field, T>) {
    Field(GateProj, Weight) in fields && Field(UpProj, Weight) in fields && Field(DownProj, Weight) in fields
  }

  /** The span of one expert in a tensor whose leading axis is the expert. */
  function LeadingSpan(f: Field, at: Location, expert: nat, numExperts: nat): S.Span
    requires numExperts > 0 && at.info.shape != []
  {
    var expertBytes := at.info.nbytes / numExperts;
    S.Span(at.file, at.name, at.info.dataOffset + expert * expertBytes, expertBytes, at.info.shape[1..], at.info.dtype, Role(f))
  }

  predicate LeadingOk(at: Location, numExperts: nat)
    requires numExperts > 0
  {
    |at.info.shape| >= 2 && at.info.shape[0] == numExperts && at.info.nbytes % numExperts == 0
  }

  function LeadingSpans(fields: map<Field, Location>, order: seq<Field>, expert: nat, numExperts: nat): seq<S.Span>
    requires numExperts > 0 && forall f :: f in fields ==> LeadingOk(fields[f], numExperts)
  {
    if order == [] then []
    else
      assert order[0] in fields ==> LeadingOk(fields[order[0]], numExperts);
      (if order[0] in fields then [LeadingSpan(order[0], fields[order[0]], expert, numExperts)] else []) +
      LeadingSpans(fields, order[1..], expert, numExperts)
  }

  function LeadingBundles(layer: int, fields: map<Field, Location>, numExperts: nat, upTo: nat): map<L.Key, S.Bundle>
    requires numExperts > 0 && forall f :: f in fields ==> LeadingOk(fields[f], numExperts)
  {
    if upTo == 0 then map[]
    else
      var key := L.Key(layer, upTo - 1);
      LeadingBundles(layer, fields, numExperts, upTo - 1)
      [key := MakeBundle(key, LeadingSpans(fields, FIELDS, upTo - 1, numExperts))]
  }

  /** `_build_leading_axis_bundles`. */
  function BuildLeading(layer: int, numExperts: nat, fields: map<Field, Location>): Result<map<L.Key, S.Bundle>>
    requires numExperts > 0
  {
    if HasWeights(fields) && forall f :: f in fields ==> LeadingOk(fields[f], numExperts)
    then Ok(LeadingBundles(layer, fields, numExperts, numExperts))
    else ValueError
  }

  /** Tensors of the split layout, with the expert id in their name. */
  type SplitFields = map<(nat, Field), Location>

  function FieldsOf(fields: SplitFields, expert: nat): map<Field, Location> {
    map k | k in fields && k.0 == expert :: k.1 := fields[k]
  }

  function SplitSpan(f: Field, at: Location): S.Span {
    S.Span(at.file, at.name, at.info.dataOffset, at.info.nbytes, at.info.shape, at.info.dtype, Role(f))
  }

  function SplitSpans(fields: map<Field, Location>, order: seq<Field>): seq<S.Span> {
    if order == [] then []
    else
      (if order[0] in fields then [SplitSpan(order[0], fields[order[0]])] else []) + SplitSpans(fields, order[1..])
  }

  function SplitBundles(layer: int, fields: SplitFields, upTo: nat): map<L.Key, S.Bundle> {
    if upTo == 0 then map[]
    else
      var key := L.Key(layer, upTo - 1);
      SplitBundles(layer, fields, upTo - 1)[key := MakeBundle(key, SplitSpans(FieldsOf(fields, upTo - 1), FIELDS))]
  }

  /** `_build_split_bundles`. */
  function BuildSplit(layer: int, numExperts: nat, fields: SplitFields): Result<map<L.Key, S.Bundle>> {
    if (forall e: nat :: e < numExperts ==> HasWeights(FieldsOf(fields, e))) && (forall k :: k in fields ==> k.0 < numExperts)
    then Ok(SplitBundles(layer, fields, numExperts))
    else ValueError
  }

  datatype LayerTensors = LayerTensors(leading: map<Field, Location>, split: SplitFields)

  /** `_build_layer_bundles`: exactly one layout must be present. */
  function BuildLayer(layer: int, numExperts: nat, tensors: LayerTensors): Result<map<L.Key, S.Bundle>>
    requires numExperts > 0
  {
    if tensors.leading != map[] && tensors.split != map[] then ValueError
    else if tensors.leading != map[] then BuildLeading(layer, numExperts, tensors.leading)
    else if tensors.split != map[] then BuildSplit(layer, numExperts, tensors.split)
    else ValueError
  }

  /** The bundles of the first `upTo` layers. */
  function BuildLayers(layers: seq<LayerTensors>, numExperts: nat, upTo: nat): Result<map<L.Key, S.Bundle>>
    requires numExperts > 0 && upTo <= |layers|
  {
    if upTo == 0 then Ok(map[])
    else
      var before := BuildLayers(layers, numExperts, upTo - 1);
      if before.ValueError? then ValueError
      else
        var layer := BuildLayer(upTo - 1, numExperts, layers[upTo - 1]);
        if layer.ValueError? then ValueError else Ok(before.value + layer.value)
  }

  // ----- the builder loops -----

  method CollectLeading(fields: map<Field, Location>, expert: nat, numExperts: nat) returns (spans: seq<S.Span>)
    requires numExperts > 0 && forall f :: f in fields ==> LeadingOk(fields[f], numExperts)
    ensures spans == LeadingSpans(fields, FIELDS, expert, numExperts)
  {
    var order := FIELDS;
    spans := [];
    assert order[0..] == order;
    for i := 0 to |order|
      invariant spans + LeadingSpans(fields, order[i..], expert, numExperts) == LeadingSpans(fields, order, expert, numExperts)
    {
      assert order[i..][0] == order[i] && order[i..][1..] == order[i + 1..];
      if order[i] in fields {
        assert LeadingOk(fields[order[i]], numExperts);
        spans := spans + [LeadingSpan(order[i], fields[order[i]], expert, numExperts)];
      }
    }
    assert order[|order|..] == [];
  }

  method CollectSplit(fields: map<Field, Location>) returns (spans: seq<S.Span>)
    ensures spans == SplitSpans(fields, FIELDS)
  {
    var order := FIELDS;
    spans := [];
    assert order[0..] == order;
    for i := 0 to |order|
      invariant spans + SplitSpans(fields, order[i..]) == SplitSpans(fields, order)
    {
      assert order[i..][0] == order[i] && order[i..][1..] == order[i + 1..];
      if order[i] in fields {
        spans := spans + [SplitSpan(order[i], fields[order[i]])];
      }
    }
    assert order[|order|..] == [];
  }

  method BuildLeadingAxisBundles(layer: int, numExperts: nat, fields: map<Field, Location>)
    returns (r: Result<map<L.Key, S.Bundle>>)
    requires numExperts > 0
    ensures r == BuildLeading(layer, numExperts, fields)
    ensures r.Ok? ==> forall e: nat :: e < numExperts ==>
              L.Key(layer, e) in r.value && r.value[L.Key(layer, e)].tensors == RowsByRole(fields, e, numExperts)
  {
    if !HasWeights(fields) || exists f :: f in fields && !LeadingOk(fields[f], numExperts) {
      return ValueError;
    }
    hide LeadingSpans;
    var bundles: map<L.Key, S.Bundle> := map[];
    for expert := 0 to numExperts
      invariant bundles == LeadingBundles(layer, fields, numExperts, expert)
    {
      var spans := CollectLeading(fields, expert, numExperts);
      var key := L.Key(layer, expert);
      bundles := bundles[key := MakeBundle(key, spans)];
    }
    r := Ok(bundles);
    LeadingBundlesByRole(layer, fields, numExperts);
  }

  method BuildSplitBundles(layer: int, numExperts: nat, fields: SplitFields)
    returns (r: Result<map<L.Key, S.Bundle>>)
    ensures r == BuildSplit(layer, numExperts, fields)
    ensures r.Ok? ==> forall e: nat :: e < numExperts ==>
              L.Key(layer, e) in r.value && r.value[L.Key(layer, e)].tensors == WholeByRole(FieldsOf(fields, e))
  {
    var bundles: map<L.Key, S.Bundle> := map[];
    for expert := 0 to numExperts
      invariant forall e: nat :: e < expert ==> HasWeights(FieldsOf(fields, e))
      invariant bundles == SplitBundles(layer, fields, expert)
    {
      var mine := FieldsOf(fields, expert);
      if !HasWeights(mine) {
        return ValueError;
      }
      var spans := CollectSplit(mine);
      var key := L.Key(layer, expert);
      bundles := bundles[key := MakeBundle(key, spans)];
    }
    if exists k :: k in fields && k.0 >= numExperts {
      return ValueError;
    }
    r := Ok(bundles);
    SplitBundlesByRole(layer, fields, numExperts);
  }

  /** The loop of `build_streaming_manifest` over the layers. */
  method BuildBundles(layers: seq<LayerTensors>, numExperts: nat) returns (r: Result<map<L.Key, S.Bundle>>)
    requires numExperts > 0
    ensures r == BuildLayers(layers, numExperts, |layers|)
  {
    hide BuildLeading; hide BuildSplit;
    var bundles: map<L.Key, S.Bundle> := map[];
    for layer := 0 to |layers|
      invariant BuildLayers(layers, numExperts, layer) == Ok(bundles)
    {
      var one: Result<map<L.Key, S.Bundle>>;
      if layers[layer].leading != map[] && layers[layer].split != map[] {
        one := ValueError;
      } else if layers[layer].leading != map[] {
        one := BuildLeadingAxisBundles(layer, numExperts, layers[layer].leading);
      } else if layers[layer].split != map[] {
        one := BuildSplitBundles(layer, numExperts, layers[layer].split);
      } else {
        one := ValueError;
      }
      assert one == BuildLayer(layer, numExperts, layers[layer]);
      if one.ValueError? {
        FailsOnceFails(layers, numExperts, layer + 1, |layers|);
        return ValueError;
      }
      bundles := bundles + one.value;
    }
    r := Ok(bundles);
  }

  lemma {:induction false} FailsOnceFails(layers: seq<LayerTensors>, numExperts: nat, upTo: nat, end: nat)
    requires numExperts > 0 && upTo <= end <= |layers| && BuildLayers(layers, numExperts, upTo).ValueError?
    ensures BuildLayers(layers, numExperts, end).ValueError?
    decreases end
  {
    hide BuildLayer;
    if upTo < end { FailsOnceFails(layers, numExperts, upTo, end - 1); }
  }

  // ----- which tensor each role names -----

  /** The tensor filed under the name, as one span with this role, if there is one. */
  function Whole(role: string, fields: map<Field, Location>, projection: Projection, part: Part): seq<S.Span> {
    if Field(projection, part) !in fields then []
    else
      var at := fields[Field(projection, part)];
      [S.Span(at.file, at.name, at.info.dataOffset, at.info.nbytes, at.info.shape, at.info.dtype, role)]
  }

  /** Row `e` of the tensor filed under the name, one of `n` equal ones. */
  function RowOfTensor(role: string, fields: map<Field, Location>, projection: Projection, part: Part, e: nat, n: nat)
    : seq<S.Span>
    requires n > 0
  {
    if Field(projection, part) !in fields || fields[Field(projection, part)].info.shape == [] then []
    else
      var at := fields[Field(projection, part)];
      [S.Span(at.file, at.name, at.info.dataOffset + e * (at.info.nbytes / n), at.info.nbytes / n, at.info.shape[1..],
              at.info.dtype, role)]
  }

  function WholeParts(fields: map<Field, Location>, p: Projection, bias: string, biases: string, scales: string,
                      weight: string): seq<S.Span> {
    Whole(bias, fields, p, Bias) + Whole(biases, fields, p, Biases) + Whole(scales, fields, p, Scales) +
    Whole(weight, fields, p, Weight)
  }

  /** The twelve roles in their order, each with its own tensor. */
  function WholeByRole(fields: map<Field, Location>): seq<S.Span> {
    WholeParts(fields, DownProj, "down_bias", "down_biases", "down_scales", "down_weight") +
    WholeParts(fields, GateProj, "gate_bias", "gate_biases", "gate_scales", "gate_weight") +
    WholeParts(fields, UpProj, "up_bias", "up_biases", "up_scales", "up_weight")
  }

  function RowParts(fields: map<Field, Location>, e: nat, n: nat, p: Projection, bias: string, biases: string,
                    scales: string, weight: string): seq<S.Span>
    requires n > 0
  {
    RowOfTensor(bias, fields, p, Bias, e, n) + RowOfTensor(biases, fields, p, Biases, e, n) +
    RowOfTensor(scales, fields, p, Scales, e, n) + RowOfTensor(weight, fields, p, Weight, e, n)
  }

  /** The twelve roles in their order, each with expert `e`'s row of its own tensor. */
  function RowsByRole(fields: map<Field, Location>, e: nat, n: nat): seq<S.Span>
    requires n > 0
  {
    RowParts(fields, e, n, DownProj, "down_bias", "down_biases", "down_scales", "down_weight") +
    RowParts(fields, e, n, GateProj, "gate_bias", "gate_biases", "gate_scales", "gate_weight") +
    RowParts(fields, e, n, UpProj, "up_bias", "up_biases", "up_scales", "up_weight")
  }

  /** The spans of the first `i` fields, and the one with the next role. */
  lemma NextRole(fields: map<Field, Location>, before: seq<S.Span>, i: nat, role: string) returns (now: seq<S.Span>)
    requires i < |FIELDS| && Role(FIELDS[i]) == role
    requires SplitSpans(fields, FIELDS) == before + SplitSpans(fields, FIELDS[i..])
    ensures now == before + Whole(role, fields, FIELDS[i].projection, FIELDS[i].part)
    ensures SplitSpans(fields, FIELDS) == now + SplitSpans(fields, FIELDS[i + 1..])
  {
    var one, f := Whole(role, fields, FIELDS[i].projection, FIELDS[i].part), FIELDS[i];
    now := before + one;
    assert FIELDS[i..][0] == f && FIELDS[i..][1..] == FIELDS[i + 1..];
    assert f == Field(f.projection, f.part);
    assert SplitSpans(fields, FIELDS[i..]) == one + SplitSpans(fields, FIELDS[i + 1..]);
  }

  lemma NextParts(fields: map<Field, Location>, before: seq<S.Span>, i: nat, p: Projection, bias: string,
                  biases: string, scales: string, weight: string) returns (now: seq<S.Span>)
    requires i + 3 < |FIELDS| && SplitSpans(fields, FIELDS) == before + SplitSpans(fields, FIELDS[i..])
    requires FIELDS[i] == Field(p, Bias) && FIELDS[i + 1] == Field(p, Biases)
    requires FIELDS[i + 2] == Field(p, Scales) && FIELDS[i + 3] == Field(p, Weight)
    requires Role(Field(p, Bias)) == bias && Role(Field(p, Biases)) == biases
    requires Role(Field(p, Scales)) == scales && Role(Field(p, Weight)) == weight
    ensures now == before + WholeParts(fields, p, bias, biases, scales, weight)
    ensures SplitSpans(fields, FIELDS) == now + SplitSpans(fields, FIELDS[i + 4..])
  {
    hide Whole; hide SplitSpans; hide Role;
    now := NextRole(fields, before, i, bias);
    now := NextRole(fields, now, i + 1, biases);
    now := NextRole(fields, now, i + 2, scales);
    now := NextRole(fields, now, i + 3, weight);
    Regroup(before, Whole(bias, fields, p, Bias), Whole(biases, fields, p, Biases), Whole(scales, fields, p, Scales),
            Whole(weight, fields, p, Weight));
  }

  lemma Regroup(x: seq<S.Span>, a: seq<S.Span>, b: seq<S.Span>, c: seq<S.Span>, d: seq<S.Span>)
    ensures x + a + b + c + d == x + (a + b + c + d)
  {
  }

  lemma SplitSpansByRole(fields: map<Field, Location>)
    ensures SplitSpans(fields, FIELDS) == WholeByRole(fields)
  {
    hide WholeParts; hide SplitSpans;
    assert FIELDS[0..] == FIELDS && FIELDS[12..] == [];
    var now := NextParts(fields, [], 0, DownProj, "down_bias", "down_biases", "down_scales", "down_weight");
    now := NextParts(fields, now, 4, GateProj, "gate_bias", "gate_biases", "gate_scales", "gate_weight");
    now := NextParts(fields, now, 8, UpProj, "up_bias", "up_biases", "up_scales", "up_weight");
    NoSpans(fields);
  }

  lemma NoSpans(fields: map<Field, Location>)
    ensures SplitSpans(fields, []) == []
  {
  }

  // ----- the leading axis is tiled -----

  /** The bytes of one expert's row along axis 0. */
  function RowBytes(info: Info): int
    requires info.shape != []
  {
    Product(info.shape[1..]) * DtypeBytes(info.dtype)
  }

  lemma RowsFill(info: Info, fileSize: int, n: nat)
    requires InRange(info, fileSize) && info.shape != [] && info.shape[0] == n && n > 0
    ensures info.nbytes == n * RowBytes(info) && RowBytes(info) > 0
    ensures info.nbytes % n == 0 && info.nbytes / n == RowBytes(info)
  {
    var row := RowBytes(info);
    TimesAssociates(n, Product(info.shape[1..]), DtypeBytes(info.dtype));
    ProductIsPositive(info.shape);
    DivideMultiple(n, row);
  }

  lemma DivideMultiple(n: nat, row: int)
    requires n > 0 && n * row > 0
    ensures row > 0 && (n * row) % n == 0 && (n * row) / n == row
  {
    if row <= 0 { NotPositive(n, row); }
    QuotientIs(n, row, (n * row) / n, (n * row) % n);
  }

  lemma NotPositive(n: nat, row: int)
    requires row <= 0
    ensures n * row <= 0
  {
  }

  lemma QuotientIs(n: nat, row: int, q: int, r: int)
    requires n > 0 && 0 <= r < n && n * row == n * q + r
    ensures q == row && r == 0
  {
    MultipleIsFar(n, row - q);
    assert n * (row - q) == r;
  }

  lemma MultipleIsFar(n: int, k: int)
    requires n >= 0
    ensures (k >= 1 ==> n * k >= n) && (k <= -1 ==> n * k <= -n)
  {
  }

  predicate Covers(s: S.Span, b: int) {
    s.offset <= b < s.offset + s.nbytes
  }

  /** The experts' spans of a leading-axis tensor are its rows along axis 0: each is one row
      long and starts where the rows before it end, so they cover every byte of the tensor
      exactly once and nothing else. The divisibility check of the builder never fails. */
  lemma ExpertsTileTensor(f: Field, at: Location, fileSize: int, n: nat, b: int)
    requires InRange(at.info, fileSize) && |at.info.shape| >= 2 && at.info.shape[0] == n && n > 0
    ensures LeadingOk(at, n)
    ensures forall e: nat :: e < n ==>
              && LeadingSpan(f, at, e, n).nbytes == RowBytes(at.info)
              && LeadingSpan(f, at, e, n).offset == at.info.dataOffset + e * RowBytes(at.info)
    ensures at.info.dataOffset <= b < at.info.dataOffset + at.info.nbytes <==>
            exists e: nat :: e < n && Covers(LeadingSpan(f, at, e, n), b)
    ensures forall d: nat, e: nat :: d < e < n ==> !(Covers(LeadingSpan(f, at, d, n), b) && Covers(LeadingSpan(f, at, e, n), b))
  {
    RowsFill(at.info, fileSize, n);
    var row, rel := RowBytes(at.info), b - at.info.dataOffset;
    if 0 <= rel < at.info.nbytes {
      RowOf(rel, row, n);
      assert Covers(LeadingSpan(f, at, rel / row, n), b);
    }
    forall e: nat | e < n && Covers(LeadingSpan(f, at, e, n), b) ensures 0 <= rel < at.info.nbytes {
      RowInside(e, row, n);
    }
    forall d: nat, e: nat | d < e < n
      ensures !(Covers(LeadingSpan(f, at, d, n), b) && Covers(LeadingSpan(f, at, e, n), b)) {
      RowInside(d, row, e);
    }
  }

  lemma RowOf(rel: nat, row: int, n: nat)
    requires row > 0 && rel < n * row
    ensures 0 <= rel / row < n && (rel / row) * row <= rel < (rel / row) * row + row
  {
    var q := rel / row;
    assert rel == q * row + rel % row;
    if q >= n { RowInside(n, row, q + 1); }
  }

  lemma RowInside(e: nat, row: int, n: nat)
    requires row > 0 && e < n
    ensures 0 <= e * row && e * row + row <= n * row
  {
    assert (e + 1) * row <= n * row;
  }

  /** The bytes of the first `upTo` experts' spans, one after the other. */
  ghost function JoinExperts(files: S.Files, f: Field, at: Location, n: nat, upTo: nat): S.Bytes
    requires n > 0 && at.info.shape != []
    requires forall e: nat :: e < n ==> S.InFile(files, LeadingSpan(f, at, e, n))
    requires upTo <= n
  {
    if upTo == 0 then []
    else JoinExperts(files, f, at, n, upTo - 1) + S.Slice(files, LeadingSpan(f, at, upTo - 1, n))
  }

  lemma ExpertsInFile(files: S.Files, f: Field, at: Location, n: nat)
    requires at.file in files && InRange(at.info, |files[at.file]|) && |at.info.shape| >= 2 && at.info.shape[0] == n > 0
    ensures forall e: nat :: e < n ==> S.InFile(files, LeadingSpan(f, at, e, n))
  {
    RowsFill(at.info, |files[at.file]|, n);
    forall e: nat | e < n ensures S.InFile(files, LeadingSpan(f, at, e, n)) {
      RowInside(e, RowBytes(at.info), n);
    }
  }

  lemma {:induction false} ExpertsRebuildPrefix(files: S.Files, f: Field, at: Location, n: nat, upTo: nat)
    requires at.file in files && InRange(at.info, |files[at.file]|) && |at.info.shape| >= 2 && at.info.shape[0] == n > 0
    requires upTo <= n && forall e: nat :: e < n ==> S.InFile(files, LeadingSpan(f, at, e, n))
    ensures var start, end := at.info.dataOffset, at.info.dataOffset + upTo * RowBytes(at.info);
            start <= end <= |files[at.file]| && JoinExperts(files, f, at, n, upTo) == files[at.file][start..end]
  {
    RowsFill(at.info, |files[at.file]|, n);
    var row, data := RowBytes(at.info), files[at.file];
    if upTo > 0 {
      RowInside(upTo - 1, row, n);
      ExpertsRebuildPrefix(files, f, at, n, upTo - 1);
      var start, cut := at.info.dataOffset, at.info.dataOffset + (upTo - 1) * row;
      assert cut + row == start + upTo * row;
      assert data[start..cut] + data[cut..cut + row] == data[start..cut + row];
    }
  }

  /** Read one after the other, the experts' spans are the whole tensor. */
  lemma ExpertsRebuildTensor(files: S.Files, f: Field, at: Location, n: nat)
    requires at.file in files && InRange(at.info, |files[at.file]|) && |at.info.shape| >= 2 && at.info.shape[0] == n > 0
    ensures forall e: nat :: e < n ==> S.InFile(files, LeadingSpan(f, at, e, n))
    ensures JoinExperts(files, f, at, n, n) ==
            files[at.file][at.info.dataOffset..at.info.dataOffset + at.info.nbytes]
  {
    ExpertsInFile(files, f, at, n);
    ExpertsRebuildPrefix(files, f, at, n, n);
    RowsFill(at.info, |files[at.file]|, n);
  }

  // ----- validation -----

  datatype Manifest = Manifest(formatVersion: int, modelType: string, numLayers: int, numExperts: int,
                               expertsPerToken: int, bundles: map<L.Key, S.Bundle>)

  const SUPPORTED_MODEL_TYPES: set<string> := {"qwen3_moe", "qwen3_5_moe", "gemma4"}

  predicate SpanOk(s: S.Span, sizes: map<string, int>) {
    s.offset >= 0 && s.nbytes > 0 && s.shape != [] && s.file in sizes && s.offset + s.nbytes <= sizes[s.file]
  }

  ghost predicate RolesDistinct(spans: seq<S.Span>) {
    forall i, j :: 0 <= i < j < |spans| ==> spans[i].role != spans[j].role
  }

  ghost predicate BundleOk(b: S.Bundle, key: L.Key, sizes: map<string, int>) {
    && b.key == key && b.totalBytes == S.SumBytes(b.tensors) && RolesDistinct(b.tensors) && b.tensors != []
    && forall s :: s in b.tensors ==> SpanOk(s, sizes)
  }

  ghost predicate Valid(m: Manifest, sizes: map<string, int>) {
    && m.formatVersion == 1 && m.modelType in SUPPORTED_MODEL_TYPES
    && m.numLayers > 0 && m.numExperts > 0 && m.expertsPerToken > 0
    && |m.bundles| == m.numLayers * m.numExperts
    && forall l, e :: 0 <= l < m.numLayers && 0 <= e < m.numExperts ==>
         L.Key(l, e) in m.bundles && BundleOk(m.bundles[L.Key(l, e)], L.Key(l, e), sizes)
  }

  function RoleSet(spans: seq<S.Span>): set<string> {
    if spans == [] then {} else RoleSet(spans[1..]) + {spans[0].role}
  }

  lemma {:induction false} RoleSetSize(spans: seq<S.Span>)
    ensures |RoleSet(spans)| <= |spans| && (|RoleSet(spans)| == |spans| <==> RolesDistinct(spans))
    ensures forall role :: role in RoleSet(spans) <==> exists i :: 0 <= i < |spans| && spans[i].role == role
  {
    if spans != [] {
      var rest := spans[1..];
      RoleSetSize(rest);
      assert forall i :: 0 <= i < |rest| ==> rest[i] == spans[i + 1];
      assert forall i :: 0 < i < |spans| ==> spans[i] == rest[i - 1];
    }
  }

  method SumOf(spans: seq<S.Span>) returns (total: int)
    ensures total == S.SumBytes(spans)
  {
    total := 0;
    assert spans[0..] == spans;
    for i := 0 to |spans|
      invariant total + S.SumBytes(spans[i..]) == S.SumBytes(spans)
    {
      assert spans[i..][0] == spans[i] && spans[i..][1..] == spans[i + 1..];
      total := total + spans[i].nbytes;
    }
  }

  method ValidateBundle(b: S.Bundle, key: L.Key, sizes: map<string, int>) returns (ok: bool)
    ensures ok <==> BundleOk(b, key, sizes)
  {
    var total := SumOf(b.tensors);
    RoleSetSize(b.tensors);
    if b.key != key || b.totalBytes != total || |RoleSet(b.tensors)| != |b.tensors| || b.tensors == [] {
      return false;
    }
    for i := 0 to |b.tensors|
      invariant forall j :: 0 <= j < i ==> SpanOk(b.tensors[j], sizes)
    {
      if !SpanOk(b.tensors[i], sizes) {
        return false;
      }
    }
    ok := true;
  }

  /** `ModelManifest.validate`, with the sizes of the files that exist. */
  method Validate(m: Manifest, sizes: map<string, int>) returns (ok: bool)
    ensures ok <==> Valid(m, sizes)
  {
    hide BundleOk;
    if m.formatVersion != 1 || m.modelType !in SUPPORTED_MODEL_TYPES ||
       m.numLayers <= 0 || m.numExperts <= 0 || m.expertsPerToken <= 0 || |m.bundles| != m.numLayers * m.numExperts {
      return false;
    }
    for layer := 0 to m.numLayers
      invariant forall l, e :: 0 <= l < layer && 0 <= e < m.numExperts ==>
                  L.Key(l, e) in m.bundles && BundleOk(m.bundles[L.Key(l, e)], L.Key(l, e), sizes)
    {
      for expert := 0 to m.numExperts
        invariant forall e :: 0 <= e < expert ==>
                    L.Key(layer, e) in m.bundles && BundleOk(m.bundles[L.Key(layer, e)], L.Key(layer, e), sizes)
      {
        var key := L.Key(layer, expert);
        if key !in m.bundles {
          return false;
        }
        var one := ValidateBundle(m.bundles[key], key, sizes);
        if !one {
          return false;
        }
      }
    }
    ok := true;
  }

  // ----- what the builders make passes validation -----

  /** A tensor whose header the reader accepted. */
  ghost predicate Located(at: Location, sizes: map<string, int>) {
    at.file in sizes && InRange(at.info, sizes[at.file])
  }

  /** Expert `e`'s part of a leading-axis tensor, as a tensor of its own. */
  function Sliced(at: Location, e: nat, n: nat): Location
    requires n > 0 && at.info.shape != []
  {
    var row := at.info.nbytes / n;
    Location(at.file, at.name, Info(at.info.dtype, at.info.shape[1..], at.info.dataOffset + e * row, row))
  }

  function SlicedFields(fields: map<Field, Location>, e: nat, n: nat): map<Field, Location>
    requires n > 0 && forall f :: f in fields ==> LeadingOk(fields[f], n)
  {
    map f | f in fields :: (assert LeadingOk(fields[f], n); Sliced(fields[f], e, n))
  }

  /** The leading-axis layout is the split layout of its slices. */
  lemma {:induction false} LeadingIsSplit(fields: map<Field, Location>, order: seq<Field>, e: nat, n: nat)
    requires n > 0 && forall f :: f in fields ==> LeadingOk(fields[f], n)
    ensures LeadingSpans(fields, order, e, n) == SplitSpans(SlicedFields(fields, e, n), order)
  {
    if order != [] {
      LeadingIsSplit(fields, order[1..], e, n);
      if order[0] in fields { assert LeadingOk(fields[order[0]], n); }
    }
  }

  lemma EveryFieldListed(f: Field)
    ensures f in FIELDS
  {
    var i := (match f.projection case DownProj => 0 case GateProj => 4 case UpProj => 8) +
             (match f.part case Bias => 0 case Biases => 1 case Scales => 2 case Weight => 3);
    assert FIELDS[i] == f;
  }

  lemma FieldsAreDistinct()
    ensures forall i, j :: 0 <= i < j < |FIELDS| ==> FIELDS[i] != FIELDS[j]
  {
  }

  lemma {:induction false} SplitSpansAre(fields: map<Field, Location>, order: seq<Field>)
    requires forall i, j :: 0 <= i < j < |order| ==> order[i] != order[j]
    ensures forall s :: s in SplitSpans(fields, order) ==> exists f :: f in order && f in fields && s == SplitSpan(f, fields[f])
    ensures forall f :: f in order && f in fields ==> SplitSpan(f, fields[f]) in SplitSpans(fields, order)
    ensures RolesDistinct(SplitSpans(fields, order))
  {
    if order != [] {
      var first, rest := order[0], SplitSpans(fields, order[1..]);
      SplitSpansAre(fields, order[1..]);
      assert forall f :: f in order[1..] ==> f in order && f != first;
      if first in fields {
        var span := SplitSpan(first, fields[first]);
        forall s | s in rest ensures s.role != span.role {
          var f :| f in order[1..] && f in fields && s == SplitSpan(f, fields[f]);
          if Role(f) == Role(first) { RoleIsInjective(f, first); }
        }
        ConsRoles(span, rest);
        assert SplitSpans(fields, order) == [span] + rest;
      } else {
        assert SplitSpans(fields, order) == [] + rest == rest;
      }
    }
  }

  lemma ConsRoles(span: S.Span, rest: seq<S.Span>)
    requires RolesDistinct(rest) && forall s :: s in rest ==> s.role != span.role
    ensures RolesDistinct([span] + rest)
  {
    var all := [span] + rest;
    assert forall i :: 0 < i < |all| ==> all[i] == rest[i - 1] && all[i] in rest;
  }

  predicate Placed(at: Location, sizes: map<string, int>) {
    at.info.dataOffset >= 0 && at.info.nbytes > 0 && at.file in sizes && at.info.dataOffset + at.info.nbytes <= sizes[at.file]
  }

  ghost predicate NoScalars(fields: map<Field, Location>) {
    forall f :: f in fields ==> fields[f].info.shape != []
  }

  /** A bundle made of in-file tensors passes validation unless one of them is a scalar. */
  lemma MadeBundleOkIff(key: L.Key, fields: map<Field, Location>, sizes: map<string, int>)
    requires HasWeights(fields) && forall f :: f in fields ==> Placed(fields[f], sizes)
    ensures BundleOk(MakeBundle(key, SplitSpans(fields, FIELDS)), key, sizes) <==> NoScalars(fields)
  {
    hide SplitSpans; hide Role; hide RolesDistinct;
    var spans := SplitSpans(fields, FIELDS);
    FieldsAreDistinct();
    SplitSpansAre(fields, FIELDS);
    EveryFieldListed(Field(GateProj, Weight));
    assert SplitSpan(Field(GateProj, Weight), fields[Field(GateProj, Weight)]) in spans;
    if NoScalars(fields) {
      forall s | s in spans ensures SpanOk(s, sizes) {
        var f :| f in FIELDS && f in fields && s == SplitSpan(f, fields[f]);
      }
    } else {
      var f :| f in fields && fields[f].info.shape == [];
      EveryFieldListed(f);
      assert !SpanOk(SplitSpan(f, fields[f]), sizes);
    }
  }

  lemma SlicesArePlaced(fields: map<Field, Location>, e: nat, n: nat, sizes: map<string, int>)
    requires n > 0 && e < n && forall f :: f in fields ==> LeadingOk(fields[f], n) && Located(fields[f], sizes)
    ensures var sliced := SlicedFields(fields, e, n);
            NoScalars(sliced) && (HasWeights(fields) ==> HasWeights(sliced)) &&
            forall f :: f in sliced ==> Placed(sliced[f], sizes)
  {
    var sliced := SlicedFields(fields, e, n);
    forall f | f in sliced ensures Placed(sliced[f], sizes) && sliced[f].info.shape != [] {
      var at := fields[f];
      assert LeadingOk(at, n) && Located(at, sizes);
      RowsFill(at.info, sizes[at.file], n);
      RowInside(e, RowBytes(at.info), n);
    }
  }

  lemma EmptyLayer(layer: int)
    ensures IsLayer(map[], layer, 0)
  {
  }

  lemma AddBundle(before: map<L.Key, S.Bundle>, layer: int, n: nat, b: S.Bundle)
    requires IsLayer(before, layer, n) && |before| == n
    ensures var after := before[L.Key(layer, n) := b];
            && IsLayer(after, layer, n + 1) && |after| == n + 1
            && forall e: nat :: e < n ==> L.Key(layer, e) in before && after[L.Key(layer, e)] == before[L.Key(layer, e)]
  {
    var after := before[L.Key(layer, n) := b];
    assert after.Keys == before.Keys + {L.Key(layer, n)} && L.Key(layer, n) !in before;
    assert forall k: L.Key :: k.layer == layer ==> k == L.Key(layer, k.expert);
  }

  lemma {:induction false} LeadingBundlesAre(layer: int, fields: map<Field, Location>, n: nat, upTo: nat)
    requires n > 0 && forall f :: f in fields ==> LeadingOk(fields[f], n)
    ensures var r := LeadingBundles(layer, fields, n, upTo);
            |r| == upTo && IsLayer(r, layer, upTo) &&
            forall e: nat :: e < upTo ==>
              L.Key(layer, e) in r && r[L.Key(layer, e)] == MakeBundle(L.Key(layer, e), LeadingSpans(fields, FIELDS, e, n))
  {
    hide LeadingSpans; hide LeadingOk; hide MakeBundle; hide IsLayer;
    if upTo == 0 {
      EmptyLayer(layer);
    } else {
      var before, key := LeadingBundles(layer, fields, n, upTo - 1), L.Key(layer, upTo - 1);
      LeadingBundlesAre(layer, fields, n, upTo - 1);
      AddBundle(before, layer, upTo - 1, MakeBundle(key, LeadingSpans(fields, FIELDS, upTo - 1, n)));
    }
  }

  lemma {:induction false} SplitBundlesAre(layer: int, fields: SplitFields, upTo: nat)
    ensures var r := SplitBundles(layer, fields, upTo);
            |r| == upTo && IsLayer(r, layer, upTo) &&
            forall e: nat :: e < upTo ==>
              L.Key(layer, e) in r &&
              r[L.Key(layer, e)] == MakeBundle(L.Key(layer, e), SplitSpans(FieldsOf(fields, e), FIELDS))
  {
    hide SplitSpans; hide FieldsOf; hide MakeBundle; hide IsLayer;
    if upTo == 0 {
      EmptyLayer(layer);
    } else {
      var before, key := SplitBundles(layer, fields, upTo - 1), L.Key(layer, upTo - 1);
      SplitBundlesAre(layer, fields, upTo - 1);
      AddBundle(before, layer, upTo - 1, MakeBundle(key, SplitSpans(FieldsOf(fields, upTo - 1), FIELDS)));
    }
  }

  ghost predicate IsLayer(bundles: map<L.Key, S.Bundle>, layer: int, n: nat) {
    forall k :: k in bundles <==> k.layer == layer && 0 <= k.expert < n
  }

  ghost predicate BundlesOk(bundles: map<L.Key, S.Bundle>, sizes: map<string, int>) {
    forall k :: k in bundles ==> BundleOk(bundles[k], k, sizes)
  }

  ghost predicate LayerLocated(tensors: LayerTensors, sizes: map<string, int>) {
    && (forall f :: f in tensors.leading ==> Located(tensors.leading[f], sizes))
    && (forall k :: k in tensors.split ==> Located(tensors.split[k], sizes))
  }

  ghost predicate LayerHasNoScalars(tensors: LayerTensors) {
    forall k :: k in tensors.split ==> tensors.split[k].info.shape != []
  }

  lemma LeadingLayerIsOk(layer: int, n: nat, fields: map<Field, Location>, sizes: map<string, int>)
    requires n > 0 && BuildLeading(layer, n, fields).Ok? && forall f :: f in fields ==> Located(fields[f], sizes)
    ensures var r := BuildLeading(layer, n, fields).value; |r| == n && IsLayer(r, layer, n) && BundlesOk(r, sizes)
  {
    hide LeadingBundles; hide LeadingSpans; hide SplitSpans; hide BundleOk; hide Located; hide NoScalars;
    hide SlicedFields;
    LeadingBundlesAre(layer, fields, n, n);
    var r := BuildLeading(layer, n, fields).value;
    forall k | k in r ensures BundleOk(r[k], k, sizes) {
      var e: nat := k.expert;
      assert k == L.Key(layer, e);
      SlicesArePlaced(fields, e, n, sizes);
      LeadingIsSplit(fields, FIELDS, e, n);
      MadeBundleOkIff(k, SlicedFields(fields, e, n), sizes);
    }
  }

  lemma SplitLayerIsOkIff(layer: int, n: nat, fields: SplitFields, sizes: map<string, int>)
    requires BuildSplit(layer, n, fields).Ok? && forall k :: k in fields ==> Located(fields[k], sizes)
    ensures var r := BuildSplit(layer, n, fields).value;
            |r| == n && IsLayer(r, layer, n) &&
            (BundlesOk(r, sizes) <==> forall k :: k in fields ==> fields[k].info.shape != [])
  {
    hide SplitBundles; hide SplitSpans; hide BundleOk; hide HasWeights;
    SplitBundlesAre(layer, fields, n);
    var r := BuildSplit(layer, n, fields).value;
    forall e: nat | e < n ensures BundleOk(r[L.Key(layer, e)], L.Key(layer, e), sizes) <==> NoScalars(FieldsOf(fields, e)) {
      var mine := FieldsOf(fields, e);
      assert forall f :: f in mine ==> (e, f) in fields && mine[f] == fields[(e, f)];
      MadeBundleOkIff(L.Key(layer, e), mine, sizes);
    }
    if forall k :: k in fields ==> fields[k].info.shape != [] {
      forall k | k in r ensures BundleOk(r[k], k, sizes) {
        var e: nat := k.expert;
        assert k == L.Key(layer, e);
        assert forall f :: f in FieldsOf(fields, e) ==> (e, f) in fields;
      }
    }
    if BundlesOk(r, sizes) {
      forall k | k in fields ensures fields[k].info.shape != [] {
        var mine := FieldsOf(fields, k.0);
        assert L.Key(layer, k.0) in r && NoScalars(mine);
        assert k == (k.0, k.1) && k.1 in mine && mine[k.1] == fields[k];
      }
    }
  }

  lemma LayerIsOkIff(layer: int, n: nat, tensors: LayerTensors, sizes: map<string, int>)
    requires n > 0 && BuildLayer(layer, n, tensors).Ok? && LayerLocated(tensors, sizes)
    ensures var r := BuildLayer(layer, n, tensors).value;
            |r| == n && IsLayer(r, layer, n) && (BundlesOk(r, sizes) <==> LayerHasNoScalars(tensors))
  {
    hide BuildLeading; hide BuildSplit; hide BundlesOk; hide IsLayer; hide Located;
    if tensors.leading != map[] {
      LeadingLayerIsOk(layer, n, tensors.leading, sizes);
    } else {
      SplitLayerIsOkIff(layer, n, tensors.split, sizes);
    }
  }

  ghost predicate AreLayers(bundles: map<L.Key, S.Bundle>, layers: nat, n: nat) {
    forall k :: k in bundles <==> 0 <= k.layer < layers && 0 <= k.expert < n
  }

  lemma JoinLayers(before: map<L.Key, S.Bundle>, layer: map<L.Key, S.Bundle>, upTo: nat, n: nat,
                   sizes: map<string, int>)
    requires AreLayers(before, upTo, n) && IsLayer(layer, upTo, n)
    ensures AreLayers(before + layer, upTo + 1, n) && |before + layer| == |before| + |layer|
    ensures BundlesOk(before + layer, sizes) <==> BundlesOk(before, sizes) && BundlesOk(layer, sizes)
  {
    hide BundleOk;
    var all := before + layer;
    assert all.Keys == before.Keys + layer.Keys && before.Keys !! layer.Keys;
    forall k | k in before ensures all[k] == before[k] {
      assert k !in layer;
    }
    if BundlesOk(all, sizes) {
      forall k | k in before ensures BundleOk(before[k], k, sizes) { assert k in all; }
      forall k | k in layer ensures BundleOk(layer[k], k, sizes) { assert k in all; }
    }
  }

  lemma {:induction false} LayersAreOkIff(layers: seq<LayerTensors>, n: nat, upTo: nat, sizes: map<string, int>)
    requires n > 0 && upTo <= |layers| && BuildLayers(layers, n, upTo).Ok?
    requires forall i :: 0 <= i < |layers| ==> LayerLocated(layers[i], sizes)
    ensures var r := BuildLayers(layers, n, upTo).value;
            |r| == upTo * n && AreLayers(r, upTo, n) &&
            (BundlesOk(r, sizes) <==> forall i :: 0 <= i < upTo ==> LayerHasNoScalars(layers[i]))
  {
    hide BuildLayer; hide BundlesOk; hide IsLayer; hide AreLayers; hide LayerHasNoScalars; hide LayerLocated;
    if upTo == 0 {
      NoLayers(n, sizes);
    } else {
      LayersAreOkIff(layers, n, upTo - 1, sizes);
      LayerIsOkIff(upTo - 1, n, layers[upTo - 1], sizes);
      JoinLayers(BuildLayers(layers, n, upTo - 1).value, BuildLayer(upTo - 1, n, layers[upTo - 1]).value, upTo - 1, n, sizes);
      assert upTo * n == (upTo - 1) * n + n;
    }
  }

  lemma NoLayers(n: nat, sizes: map<string, int>)
    ensures AreLayers(map[], 0, n) && BundlesOk(map[], sizes)
  {
  }

  // ----- what the bundles hold and when they are built -----

  lemma SliceByRole(role: string, fields: map<Field, Location>, p: Projection, part: Part, e: nat, n: nat)
    requires n > 0 && forall f :: f in fields ==> LeadingOk(fields[f], n)
    ensures RowOfTensor(role, fields, p, part, e, n) == Whole(role, SlicedFields(fields, e, n), p, part)
  {
    if Field(p, part) in fields { assert LeadingOk(fields[Field(p, part)], n); }
  }

  lemma SlicePartsByRole(fields: map<Field, Location>, e: nat, n: nat, p: Projection, bias: string, biases: string,
                         scales: string, weight: string)
    requires n > 0 && forall f :: f in fields ==> LeadingOk(fields[f], n)
    ensures RowParts(fields, e, n, p, bias, biases, scales, weight) ==
            WholeParts(SlicedFields(fields, e, n), p, bias, biases, scales, weight)
  {
    hide Whole; hide RowOfTensor; hide SlicedFields; hide LeadingOk;
    SliceByRole(bias, fields, p, Bias, e, n);
    SliceByRole(biases, fields, p, Biases, e, n);
    SliceByRole(scales, fields, p, Scales, e, n);
    SliceByRole(weight, fields, p, Weight, e, n);
  }

  lemma LeadingSpansByRole(fields: map<Field, Location>, e: nat, n: nat)
    requires n > 0 && forall f :: f in fields ==> LeadingOk(fields[f], n)
    ensures LeadingSpans(fields, FIELDS, e, n) == RowsByRole(fields, e, n)
  {
    hide WholeParts; hide RowParts; hide SlicedFields; hide LeadingOk; hide LeadingSpans; hide SplitSpans;
    LeadingIsSplit(fields, FIELDS, e, n);
    SplitSpansByRole(SlicedFields(fields, e, n));
    SlicePartsByRole(fields, e, n, DownProj, "down_bias", "down_biases", "down_scales", "down_weight");
    SlicePartsByRole(fields, e, n, GateProj, "gate_bias", "gate_biases", "gate_scales", "gate_weight");
    SlicePartsByRole(fields, e, n, UpProj, "up_bias", "up_biases", "up_scales", "up_weight");
  }

  lemma LeadingBundlesByRole(layer: int, fields: map<Field, Location>, n: nat)
    requires n > 0 && forall f :: f in fields ==> LeadingOk(fields[f], n)
    ensures var r := LeadingBundles(layer, fields, n, n);
            forall e: nat :: e < n ==> L.Key(layer, e) in r && r[L.Key(layer, e)].tensors == RowsByRole(fields, e, n)
  {
    hide RowsByRole; hide LeadingBundles; hide LeadingOk; hide LeadingSpans; hide IsLayer; hide S.SumBytes;
    LeadingBundlesAre(layer, fields, n, n);
    forall e: nat | e < n ensures LeadingSpans(fields, FIELDS, e, n) == RowsByRole(fields, e, n) {
      LeadingSpansByRole(fields, e, n);
    }
  }

  lemma SplitBundlesByRole(layer: int, fields: SplitFields, n: nat)
    ensures var r := SplitBundles(layer, fields, n);
            forall e: nat :: e < n ==>
              L.Key(layer, e) in r && r[L.Key(layer, e)].tensors == WholeByRole(FieldsOf(fields, e))
  {
    hide WholeByRole; hide SplitBundles; hide FieldsOf; hide SplitSpans; hide IsLayer; hide S.SumBytes;
    SplitBundlesAre(layer, fields, n);
    forall e: nat | e < n ensures SplitSpans(FieldsOf(fields, e), FIELDS) == WholeByRole(FieldsOf(fields, e)) {
      SplitSpansByRole(FieldsOf(fields, e));
    }
  }

  /** `mine` are the split tensors of expert `e`. */
  ghost predicate AreOf(mine: map<Field, Location>, split: SplitFields, e: nat) {
    && (forall f :: f in mine <==> (e, f) in split)
    && (forall f :: f in mine ==> mine[f] == split[(e, f)])
  }

  /** In the stacked layout each role of an expert is its row of that role's own tensor, in
      the split layout the whole tensor with its id; all present roles are there, in order. */
  ghost predicate HoldsItsTensors(b: S.Bundle, tensors: LayerTensors, e: nat, n: nat)
    requires n > 0
  {
    if tensors.leading != map[] then b.tensors == RowsByRole(tensors.leading, e, n)
    else exists mine: map<Field, Location> :: AreOf(mine, tensors.split, e) && b.tensors == WholeByRole(mine)
  }

  lemma LayerHolds(layer: int, n: nat, tensors: LayerTensors, e: nat)
    requires n > 0 && BuildLayer(layer, n, tensors).Ok? && e < n
    ensures var r := BuildLayer(layer, n, tensors).value;
            && IsLayer(r, layer, n) && L.Key(layer, e) in r
            && r[L.Key(layer, e)].key == L.Key(layer, e) && HoldsItsTensors(r[L.Key(layer, e)], tensors, e, n)
  {
    hide LeadingSpans; hide SplitSpans; hide RowsByRole; hide WholeByRole; hide LeadingOk; hide LeadingBundles;
    hide SplitBundles; hide IsLayer; hide HasWeights; hide S.SumBytes;
    if tensors.leading != map[] {
      LeadingBundlesAre(layer, tensors.leading, n, n);
      LeadingSpansByRole(tensors.leading, e, n);
    } else {
      var mine := FieldsOf(tensors.split, e);
      SplitBundlesAre(layer, tensors.split, n);
      SplitSpansByRole(mine);
      assert AreOf(mine, tensors.split, e);
    }
  }

  lemma {:induction false} LayersHold(layers: seq<LayerTensors>, n: nat, upTo: nat, l: nat, e: nat)
    requires n > 0 && upTo <= |layers| && BuildLayers(layers, n, upTo).Ok? && l < upTo && e < n
    ensures var r := BuildLayers(layers, n, upTo).value;
            && L.Key(l, e) in r && r[L.Key(l, e)].key == L.Key(l, e)
            && HoldsItsTensors(r[L.Key(l, e)], layers[l], e, n)
  {
    hide BuildLayer; hide HoldsItsTensors;
    LayerHolds(upTo - 1, n, layers[upTo - 1], e);
    if l < upTo - 1 { LayersHold(layers, n, upTo - 1, l, e); }
  }

  /** Every bundle of a built manifest holds its own expert's tensors, each filed under its own
      role. */
  lemma EveryRoleNamesItsTensor(layers: seq<LayerTensors>, n: nat, l: nat, e: nat)
    requires n > 0 && BuildLayers(layers, n, |layers|).Ok? && l < |layers| && e < n
    ensures var r := BuildLayers(layers, n, |layers|).value;
            && L.Key(l, e) in r && r[L.Key(l, e)].key == L.Key(l, e)
            && HoldsItsTensors(r[L.Key(l, e)], layers[l], e, n)
  {
    LayersHold(layers, n, |layers|, l, e);
  }

  predicate HasAllWeights(split: SplitFields, e: nat) {
    (e, Field(GateProj, Weight)) in split && (e, Field(UpProj, Weight)) in split &&
    (e, Field(DownProj, Weight)) in split
  }

  /** Exactly one layout, with the three weights of every expert; stacked tensors must have one
      row per expert along axis 0, and split ones no expert out of range. */
  ghost predicate LayerFits(tensors: LayerTensors, n: nat)
    requires n > 0
  {
    if tensors.split == map[] then
      && Field(GateProj, Weight) in tensors.leading && Field(UpProj, Weight) in tensors.leading
      && Field(DownProj, Weight) in tensors.leading
      && forall f :: f in tensors.leading ==>
           var info := tensors.leading[f].info;
           |info.shape| >= 2 && info.shape[0] == n && info.nbytes % n == 0
    else
      && tensors.leading == map[]
      && (forall e: nat :: e < n ==> HasAllWeights(tensors.split, e))
      && forall k :: k in tensors.split ==> k.0 < n
  }

  lemma LayerIsBuiltIff(layer: int, n: nat, tensors: LayerTensors)
    requires n > 0
    ensures BuildLayer(layer, n, tensors).Ok? <==> LayerFits(tensors, n)
  {
    if tensors.leading == map[] {
      assert Field(GateProj, Weight) !in tensors.leading;
      WeightsOfExperts(tensors.split, n);
    }
  }

  lemma WeightsOfExperts(fields: SplitFields, n: nat)
    ensures (forall e: nat :: e < n ==> HasWeights(FieldsOf(fields, e))) <==>
            forall e: nat :: e < n ==> HasAllWeights(fields, e)
  {
    forall e: nat | e < n ensures HasWeights(FieldsOf(fields, e)) <==> HasAllWeights(fields, e) {
      assert AreOf(FieldsOf(fields, e), fields, e);
    }
  }

  /** A manifest is built exactly when every layer fits. */
  lemma {:induction false} BuiltIff(layers: seq<LayerTensors>, n: nat, upTo: nat)
    requires n > 0 && upTo <= |layers|
    ensures BuildLayers(layers, n, upTo).Ok? <==> forall l :: 0 <= l < upTo ==> LayerFits(layers[l], n)
  {
    hide BuildLayer; hide LayerFits;
    if upTo > 0 {
      BuiltIff(layers, n, upTo - 1);
      LayerIsBuiltIff(upTo - 1, n, layers[upTo - 1]);
    }
  }

  /** Whatever the layouts, a manifest built from accepted headers has distinct roles, correct
      sums and in-file ranges; validation accepts it exactly when no tensor of the split
      layout is a scalar. */
  lemma BuiltManifestIsValidIff(m: Manifest, layers: seq<LayerTensors>, sizes: map<string, int>)
    requires m.formatVersion == 1 && m.modelType in SUPPORTED_MODEL_TYPES && m.expertsPerToken > 0
    requires m.numLayers == |layers| > 0 && m.numExperts > 0
    requires BuildLayers(layers, m.numExperts, |layers|) == Ok(m.bundles)
    requires forall i :: 0 <= i < |layers| ==> LayerLocated(layers[i], sizes)
    ensures Valid(m, sizes) <==> forall i :: 0 <= i < |layers| ==> LayerHasNoScalars(layers[i])
  {
    hide BundleOk; hide LayerLocated; hide LayerHasNoScalars; hide BuildLayers;
    LayersAreOkIff(layers, m.numExperts, |layers|, sizes);
    assert forall l, e :: 0 <= l < m.numLayers && 0 <= e < m.numExperts ==> L.Key(l, e) in m.bundles;
    if Valid(m, sizes) {
      forall k | k in m.bundles ensures BundleOk(m.bundles[k], k, sizes) {
        assert k == L.Key(k.layer, k.expert);
      }
    }
  }

  /** A split checkpoint whose three weights are scalars: the header reader and the builder
      accept it, and everything else is in order, but validation refuses it. */
  lemma ScalarTensorsAreRefused() returns (m: Manifest, layers: seq<LayerTensors>, sizes: map<string, int>)
    ensures m.formatVersion == 1 && m.modelType in SUPPORTED_MODEL_TYPES && m.expertsPerToken > 0
    ensures m.numLayers == |layers| == 1 && m.numExperts == 1 && LayerLocated(layers[0], sizes)
    ensures BuildLayers(layers, m.numExperts, |layers|) == Ok(m.bundles)
    ensures !LayerHasNoScalars(layers[0]) && !Valid(m, sizes)
  {
    var file, prefix := "model.safetensors", "model.layers.0.mlp.experts.0.";
    var down := Location(file, prefix + "down_proj.weight", Info("U8", [], 100, 1));
    var gate := Location(file, prefix + "gate_proj.weight", Info("U8", [], 101, 1));
    var up := Location(file, prefix + "up_proj.weight", Info("U8", [], 102, 1));
    var g, u, d := Field(GateProj, Weight), Field(UpProj, Weight), Field(DownProj, Weight);
    var split: SplitFields := map[(0, g) := gate, (0, u) := up, (0, d) := down];
    layers, sizes := [LayerTensors(map[], split)], map[file := 103];
    assert Located(down, sizes) && Located(gate, sizes) && Located(up, sizes);
    assert (0, g) in split && (0, u) in split && (0, d) in split;
    assert g in FieldsOf(split, 0) && u in FieldsOf(split, 0) && d in FieldsOf(split, 0);
    assert BuildSplit(0, 1, split).Ok?;
    assert BuildLayer(0, 1, layers[0]).Ok? && BuildLayers(layers, 1, 0).Ok?;
    m := Manifest(1, "qwen3_moe", 1, 1, 1, BuildLayers(layers, 1, 1).value);
    assert !LayerHasNoScalars(layers[0]);
    BuiltManifestIsValidIff(m, layers, sizes);
  }

  // ----- a valid manifest can be read and repacked -----

  ghost function Grid(layers: nat, n: nat): (r: set<L.Key>)
    ensures forall k :: k in r <==> 0 <= k.layer < layers && 0 <= k.expert < n
    ensures |r| == layers * n
  {
    if layers == 0 then {}
    else
      assert layers * n == (layers - 1) * n + n;
      Grid(layers - 1, n) + Row(layers - 1, n)
  }

  ghost function Row(layer: nat, n: nat): (r: set<L.Key>)
    ensures forall k :: k in r <==> k.layer == layer && 0 <= k.expert < n
    ensures |r| == n
  {
    if n == 0 then {} else Row(layer, n - 1) + {L.Key(layer, n - 1)}
  }

  /** Every bundle of a valid manifest has distinct roles, in-file ranges and the right total:
      what exact reading and repacking rely on. */
  lemma ValidManifestIsReadable(m: Manifest, sizes: map<string, int>, files: S.Files)
    requires Valid(m, sizes) && forall f :: f in sizes ==> f in files && |files[f]| == sizes[f]
    ensures R.ValidManifest(files, m.bundles)
  {
    hide BundleOk; hide S.UniqueRoles; hide S.AllInFile; hide S.SumBytes; hide Grid;
    var grid := Grid(m.numLayers, m.numExperts);
    forall k | k in grid ensures k in m.bundles.Keys {
      assert k == L.Key(k.layer, k.expert);
    }
    SameSize(grid, m.bundles.Keys);
    forall k | k in m.bundles
      ensures m.bundles[k].key == k && m.bundles[k].tensors != [] && S.UniqueRoles(multiset(m.bundles[k].tensors))
      ensures S.AllInFile(files, m.bundles[k].tensors) && S.SumBytes(m.bundles[k].tensors) == m.bundles[k].totalBytes {
      assert k in grid && k == L.Key(k.layer, k.expert);
      OkBundleIsReadable(m.bundles[k], k, sizes, files);
    }
  }

  lemma SameSize<T>(a: set<T>, b: set<T>)
    requires a <= b && |a| == |b|
    ensures a == b
  {
    assert b == a + (b - a);
  }

  lemma OkBundleIsReadable(b: S.Bundle, key: L.Key, sizes: map<string, int>, files: S.Files)
    requires BundleOk(b, key, sizes) && forall f :: f in sizes ==> f in files && |files[f]| == sizes[f]
    ensures b.key == key && b.tensors != [] && S.UniqueRoles(multiset(b.tensors))
    ensures S.AllInFile(files, b.tensors) && S.SumBytes(b.tensors) == b.totalBytes
  {
    R.UniqueRolesByIndex(b.tensors);
    forall s | s in b.tensors ensures S.InFile(files, s) {
      assert SpanOk(s, sizes);
    }
  }
}
