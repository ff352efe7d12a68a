/** The KV-cache precision policy: estimates, the automatic choice, and the reservation that
    enters the memory plan. */
module KvPolicy {
  import C = ResidentCache
  import M = MemoryPressure

  datatype Result<+T> = Ok(value: T) | ValueError

  /** A configuration value as JSON gives it. */
  datatype Field = Missing | NotInt | Int(value: int)

  datatype TextConfig = TextConfig(
    layers: Field, kvHeads: Field, attentionHeads: Field, headDim: Field, hiddenSize: Field,
    layerTypes: seq<string>, slidingWindow: Field)

  datatype Mode = Auto | Bf16 | EightBit | FourBit

  datatype KvConfig = KvConfig(mode: Mode, context: nat, groupSize: nat)

  // ----- the BF16 estimate -----

  /** `_positive_int`, with an optional fallback for a missing value. */
  function PositiveInt(value: Field, fallback: Field): Result<nat> {
    var used := if value.Missing? then fallback else value;
    if used.Int? && used.value > 0 then Ok(used.value) else ValueError
  }

  function HeadDim(config: TextConfig): Result<nat> {
    if config.headDim.Int? && config.headDim.value > 0 then Ok(config.headDim.value)
    else
      var hidden, heads := PositiveInt(config.hiddenSize, Missing), PositiveInt(config.attentionHeads, Missing);
      if hidden.ValueError? || heads.ValueError? || hidden.value % heads.value != 0 then ValueError
      else Ok(hidden.value / heads.value)
  }

  function LayerType(config: TextConfig, layer: nat): string {
    if layer < |config.layerTypes| then config.layerTypes[layer] else ""
  }

  /** The tokens one layer keeps: none for recurrent layers, a window for sliding ones. */
  function LayerTokens(config: TextConfig, layer: nat, context: nat): nat {
    if LayerType(config, layer) == "linear_attention" then 0
    else if LayerType(config, layer) == "sliding_attention" && config.slidingWindow.Int? then
      var window := if config.slidingWindow.value > 0 then config.slidingWindow.value else 0;
      if window < context then window else context
    else context
  }

  function TotalTokens(config: TextConfig, layers: nat, context: nat): nat {
    if layers == 0 then 0 else TotalTokens(config, layers - 1, context) + LayerTokens(config, layers - 1, context)
  }

  /** `estimate_bf16_kv_bytes`. */
  function EstimateBf16(config: TextConfig, context: nat): Result<nat> {
    var layers := PositiveInt(config.layers, Missing);
    var heads := PositiveInt(config.kvHeads, config.attentionHeads);
    var headDim := HeadDim(config);
    if layers.ValueError? || heads.ValueError? || headDim.ValueError? then ValueError
    else Ok(Bytes(TotalTokens(config, layers.value, context), heads.value, headDim.value))
  }

  /** Keys and values of two bytes each. */
  function Bytes(tokens: nat, heads: nat, headDim: nat): nat {
    tokens * heads * headDim * 2 * 2
  }

  method EstimateBf16Bytes(config: TextConfig, context: nat) returns (r: Result<nat>)
    ensures r == EstimateBf16(config, context)
  {
    hide Bytes; hide HeadDim;
    var layers, heads := PositiveInt(config.layers, Missing), PositiveInt(config.kvHeads, config.attentionHeads);
    if layers.ValueError? || heads.ValueError? {
      return ValueError;
    }
    var headDim := HeadDim(config);
    if headDim.ValueError? {
      return ValueError;
    }
    var total := 0;
    for layer := 0 to layers.value
      invariant total == TotalTokens(config, layer, context)
    {
      var layerType := if layer < |config.layerTypes| then config.layerTypes[layer] else "";
      if layerType != "linear_attention" {
        var tokens := context;
        if layerType == "sliding_attention" && config.slidingWindow.Int? {
          var window := if config.slidingWindow.value > 0 then config.slidingWindow.value else 0;
          tokens := if window < tokens then window else tokens;
        }
        total := total + tokens;
      }
    }
    r := Ok(Bytes(total, heads.value, headDim.value));
  }

  /** The layers of one kind among the first `layers`; layers beyond the list are unnamed. */
  ghost function LayersOf(kind: string, config: TextConfig, layers: nat): nat {
    if layers == 0 then 0
    else
      var named := layers - 1 < |config.layerTypes| && config.layerTypes[layers - 1] == kind;
      LayersOf(kind, config, layers - 1) + if named then 1 else 0
  }

  lemma {:induction false} TokensByKind(config: TextConfig, layers: nat, context: nat, window: nat)
    requires config.slidingWindow.Int?
    requires window == var w := config.slidingWindow.value; if w < 0 then 0 else if w < context then w else context
    ensures var linear := LayersOf("linear_attention", config, layers);
            var sliding := LayersOf("sliding_attention", config, layers);
            TotalTokens(config, layers, context) == sliding * window + (layers - linear - sliding) * context
  {
    if layers > 0 {
      TokensByKind(config, layers - 1, context, window);
      var linear := LayersOf("linear_attention", config, layers - 1);
      var sliding := LayersOf("sliding_attention", config, layers - 1);
      OneMore(sliding, window);
      OneMore(layers - 1 - linear - sliding, context);
    }
  }

  lemma {:induction false} TokensWithoutWindow(config: TextConfig, layers: nat, context: nat)
    requires !config.slidingWindow.Int?
    ensures TotalTokens(config, layers, context) == (layers - LayersOf("linear_attention", config, layers)) * context
  {
    if layers > 0 {
      TokensWithoutWindow(config, layers - 1, context);
      OneMore(layers - 1 - LayersOf("linear_attention", config, layers - 1), context);
    }
  }

  lemma OneMore(n: int, x: int)
    ensures (n + 1) * x == n * x + x
  {
  }

  predicate IsPositive(value: Field) {
    value.Int? && value.value > 0
  }

  /** When a configuration has an estimate: with a layer count, a head count or its fallback,
      and a head dimension or a hidden size that divides among the attention heads. It counts
      keys and values of two bytes for every token kept: the whole context in full layers, at
      most the window in sliding ones if it is given, and none in linear ones. */
  lemma EstimateIsExact(config: TextConfig, context: nat, dim: nat)
    requires if IsPositive(config.headDim) then dim == config.headDim.value
             else IsPositive(config.hiddenSize) && IsPositive(config.attentionHeads) ==>
                    var heads := config.attentionHeads.value;
                    dim * heads <= config.hiddenSize.value < (dim + 1) * heads
    ensures var divides := IsPositive(config.hiddenSize) && IsPositive(config.attentionHeads) &&
                           dim * config.attentionHeads.value == config.hiddenSize.value;
            EstimateBf16(config, context).Ok? <==>
              && IsPositive(config.layers)
              && (IsPositive(config.kvHeads) || (config.kvHeads.Missing? && IsPositive(config.attentionHeads)))
              && (IsPositive(config.headDim) || divides)
    ensures EstimateBf16(config, context).Ok? ==>
              var layers := config.layers.value;
              var heads := if config.kvHeads.Missing? then config.attentionHeads.value else config.kvHeads.value;
              var linear := LayersOf("linear_attention", config, layers);
              var sliding := LayersOf("sliding_attention", config, layers);
              var w := if config.slidingWindow.Int? then config.slidingWindow.value else context;
              var window := if w < 0 then 0 else if w < context then w else context;
              EstimateBf16(config, context).value ==
                4 * ((sliding * window + (layers - linear - sliding) * context) * heads * dim)
  {
    if IsPositive(config.hiddenSize) && IsPositive(config.attentionHeads) && !IsPositive(config.headDim) {
      QuotientIs(config.hiddenSize.value, config.attentionHeads.value, dim);
    }
    if EstimateBf16(config, context).Ok? {
      var layers := config.layers.value;
      var linear := LayersOf("linear_attention", config, layers);
      var sliding := LayersOf("sliding_attention", config, layers);
      if config.slidingWindow.Int? {
        var w := config.slidingWindow.value;
        TokensByKind(config, layers, context, if w < 0 then 0 else if w < context then w else context);
      } else {
        TokensWithoutWindow(config, layers, context);
        Distribute(sliding, layers - linear - sliding, context);
      }
    }
  }

  lemma Distribute(a: int, b: int, x: int)
    ensures a * x + b * x == (a + b) * x
  {
  }

  lemma QuotientIs(n: nat, d: nat, q: nat)
    requires d > 0 && q * d <= n < (q + 1) * d
    ensures n / d == q && (n % d == 0 <==> q * d == n)
  {
    var r := n - q * d;
    OneMore(q, d);
    assert n == q * d + r && 0 <= r < d;
    UniqueQuotient(d, n / d, n % d, q, r);
  }

  lemma UniqueQuotient(d: nat, a: int, r: int, b: int, s: int)
    requires d > 0 && a * d + r == b * d + s && 0 <= r < d && 0 <= s < d
    ensures a == b && r == s
  {
    var k := a - b;
    Distribute(a, -b, d);
    assert k * d == s - r;
    if k >= 1 { MultipleIsFar(k, d); } else if k <= -1 { MultipleIsFar(-k, d); }
  }

  lemma MultipleIsFar(k: int, d: nat)
    requires k >= 1
    ensures k * d >= d && (0 - k) * d <= 0 - d
  {
  }

  lemma {:induction false} TokensGrow(config: TextConfig, layers: nat, a: nat, b: nat)
    requires a <= b
    ensures TotalTokens(config, layers, a) <= TotalTokens(config, layers, b)
  {
    if layers > 0 { TokensGrow(config, layers - 1, a, b); }
  }

  lemma ProductGrows(a: nat, b: nat, n: nat)
    requires a <= b
    ensures a * n <= b * n
  {
  }

  /** A longer context never needs fewer bytes, and is refused only with a shorter one. */
  lemma EstimateGrows(config: TextConfig, a: nat, b: nat)
    requires a <= b
    ensures EstimateBf16(config, a).Ok? <==> EstimateBf16(config, b).Ok?
    ensures EstimateBf16(config, a).Ok? ==> EstimateBf16(config, a).value <= EstimateBf16(config, b).value
  {
    if EstimateBf16(config, a).Ok? {
      var layers := PositiveInt(config.layers, Missing).value;
      var heads := PositiveInt(config.kvHeads, config.attentionHeads).value;
      var headDim := HeadDim(config).value;
      var x, y := TotalTokens(config, layers, a), TotalTokens(config, layers, b);
      TokensGrow(config, layers, a, b);
      ProductGrows(x, y, heads);
      ProductGrows(x * heads, y * heads, headDim);
    }
  }

  // ----- quantized estimates -----

  /** `_quantized_estimate`. */
  function Quantized(bf16: nat, bits: nat, groupSize: nat): nat
    requires groupSize > 0
  {
    var elements := bf16 / 2;
    (elements * bits + 7) / 8 + ((elements + groupSize - 1) / groupSize) * 2
  }

  lemma GroupsAre(elements: nat, groupSize: nat)
    requires groupSize > 0
    ensures var groups := (elements + groupSize - 1) / groupSize;
            && groups * groupSize >= elements && (groups == 0 || (groups - 1) * groupSize < elements)
  {
    var groups := (elements + groupSize - 1) / groupSize;
    assert groups * groupSize + (elements + groupSize - 1) % groupSize == elements + groupSize - 1;
    assert (groups - 1) * groupSize == groups * groupSize - groupSize;
  }

  lemma FewerGroups(a: nat, b: nat, groupSize: nat)
    requires groupSize > 0 && a <= b
    ensures (a + groupSize - 1) / groupSize <= (b + groupSize - 1) / groupSize
  {
    var x, y := (a + groupSize - 1) / groupSize, (b + groupSize - 1) / groupSize;
    GroupsAre(a, groupSize);
    GroupsAre(b, groupSize);
    if x > y { ProductGrows(y, x - 1, groupSize); }
  }

  /** What a quantized estimate holds: the bits of all elements in whole bytes, and two bytes
      of scale for each started group. */
  lemma QuantizedIsExact(bf16: nat, bits: nat, groupSize: nat) returns (elements: nat, values: nat, groups: nat)
    requires groupSize > 0
    ensures Quantized(bf16, bits, groupSize) == values + 2 * groups
    ensures 2 * elements <= bf16 <= 2 * elements + 1
    ensures 8 * values >= elements * bits > 8 * (values - 1)
    ensures groups * groupSize >= elements && (groups > 0 ==> (groups - 1) * groupSize < elements)
  {
    elements := bf16 / 2;
    values, groups := (elements * bits + 7) / 8, (elements + groupSize - 1) / groupSize;
    GroupsAre(elements, groupSize);
  }

  /** Estimates grow with the bytes to be stored. */
  lemma QuantizedGrows(a: nat, b: nat, bits: nat, groupSize: nat)
    requires groupSize > 0 && a <= b
    ensures Quantized(a, bits, groupSize) <= Quantized(b, bits, groupSize)
  {
    FewerGroups(a / 2, b / 2, groupSize);
    ProductGrows(a / 2, b / 2, bits);
  }

  lemma AtMostHalf(elements: nat, groups: nat, filled: int)
    requires elements % 2 == 0 && (groups > 0 ==> 2 * (groups - 1) <= filled < elements)
    ensures groups * 2 <= elements
  {
  }

  lemma Swap(a: int, b: int)
    ensures a * b == b * a
  {
  }

  /** An even number of elements needs at most half as many groups of two or more. */
  lemma HalfAsManyGroups(elements: nat, groupSize: nat)
    requires groupSize >= 2 && elements % 2 == 0
    ensures ((elements + groupSize - 1) / groupSize) * 2 <= elements
  {
    var groups := (elements + groupSize - 1) / groupSize;
    GroupsAre(elements, groupSize);
    if groups > 0 {
      ProductGrows(2, groupSize, groups - 1);
      Swap(groupSize, groups - 1);
    }
    AtMostHalf(elements, groups, (groups - 1) * groupSize);
  }

  /** Four bits never need more than eight; quantizing never needs more than BF16 exactly when
      the groups hold at least two elements, or there is nothing to store. */
  lemma QuantizingSavesIff(config: TextConfig, context: nat, groupSize: nat)
    requires groupSize > 0 && EstimateBf16(config, context).Ok?
    ensures var bf16 := EstimateBf16(config, context).value;
            && Quantized(bf16, 4, groupSize) <= Quantized(bf16, 8, groupSize)
            && (Quantized(bf16, 8, groupSize) <= bf16 <==> groupSize >= 2 || bf16 == 0)
            && (Quantized(bf16, 4, groupSize) <= bf16 <==> groupSize >= 2 || bf16 == 0)
  {
    var bf16 := EstimateBf16(config, context).value;
    var elements := bf16 / 2;
    assert bf16 % 4 == 0 && elements % 2 == 0 && bf16 == elements * 2;
    if groupSize >= 2 {
      HalfAsManyGroups(elements, groupSize);
    } else {
      assert groupSize == 1 && (elements + groupSize - 1) / groupSize == elements;
    }
  }

  // ----- the choice -----

  datatype Decision = Decision(effective: Mode, estimatedBf16: nat, estimated: nat, reserve: nat, allowance: nat)

  function ModeBits(mode: Mode): nat {
    match mode case Auto => 0 case FourBit => 4 case EightBit => 8 case Bf16 => 16
  }

  function Estimate(mode: Mode, bf16: nat, groupSize: nat): nat
    requires groupSize > 0
  {
    match mode
    case FourBit => Quantized(bf16, 4, groupSize)
    case EightBit => Quantized(bf16, 8, groupSize)
    case _ => bf16
  }

  /** A quarter of what the shell, the scratch space and the margin leave of the working set. */
  function Allowance(budget: M.Config, snapshot: M.Snapshot, shell: int): nat {
    var workingSet := if snapshot.recommended != 0 then snapshot.recommended else snapshot.physical;
    var headroom := workingSet - budget.safetyMargin - shell - budget.scratchReserve;
    if headroom > 0 then headroom / 4 else 0
  }

  function Choose(mode: Mode, bf16: nat, groupSize: nat, allowance: nat): Mode
    requires groupSize > 0
  {
    if !mode.Auto? then mode
    else if bf16 <= allowance then Bf16
    else if Quantized(bf16, 8, groupSize) <= allowance then EightBit
    else FourBit
  }

  /** `resolve_kv_cache`. */
  function Resolve(requested: KvConfig, config: TextConfig, shell: int, budget: M.Config,
                   snapshot: M.Snapshot): Result<Decision>
    requires requested.groupSize > 0
  {
    var bf16 := EstimateBf16(config, requested.context);
    if bf16.ValueError? then ValueError
    else
      var allowance := Allowance(budget, snapshot, shell);
      var effective := Choose(requested.mode, bf16.value, requested.groupSize, allowance);
      var estimated := Estimate(effective, bf16.value, requested.groupSize);
      Ok(Decision(effective, bf16.value, estimated,
                  if budget.kvReserve > estimated then budget.kvReserve else estimated, allowance))
  }

  /** `auto` takes the most precise mode that fits the allowance, and something that fits
      whenever anything does; otherwise it takes the smallest. */
  lemma AutoPicksTheBestFit(bf16: nat, groupSize: nat, allowance: nat, mode: Mode)
    requires groupSize > 0 && !mode.Auto?
    ensures var chosen := Choose(Auto, bf16, groupSize, allowance);
            && !chosen.Auto?
            && (Estimate(mode, bf16, groupSize) <= allowance ==>
                  ModeBits(mode) <= ModeBits(chosen) && Estimate(chosen, bf16, groupSize) <= allowance)
            && (Estimate(chosen, bf16, groupSize) > allowance ==>
                  chosen.FourBit? && Estimate(mode, bf16, groupSize) > allowance)
  {
    FewerBitsSmaller(bf16, groupSize);
  }

  /** A decision: an explicit mode is taken as it is, the reservation is the larger of the
      configured one and the estimate of the mode, and the allowance is a quarter, rounded
      down, of what margin, shell and scratch space leave of the working set, if anything. */
  lemma DecisionIsExact(requested: KvConfig, config: TextConfig, shell: int, budget: M.Config, snapshot: M.Snapshot)
    requires requested.groupSize > 0
    ensures Resolve(requested, config, shell, budget, snapshot).Ok? <==> EstimateBf16(config, requested.context).Ok?
    ensures Resolve(requested, config, shell, budget, snapshot).Ok? ==>
              var d := Resolve(requested, config, shell, budget, snapshot).value;
              var left := (if snapshot.recommended > 0 then snapshot.recommended else snapshot.physical)
                          - budget.safetyMargin - shell - budget.scratchReserve;
              && (!requested.mode.Auto? ==> d.effective == requested.mode) && !d.effective.Auto?
              && d.estimatedBf16 == EstimateBf16(config, requested.context).value
              && (d.effective.Bf16? ==> d.estimated == d.estimatedBf16)
              && (d.effective.EightBit? ==> d.estimated == Quantized(d.estimatedBf16, 8, requested.groupSize))
              && (d.effective.FourBit? ==> d.estimated == Quantized(d.estimatedBf16, 4, requested.groupSize))
              && d.reserve >= d.estimated && d.reserve >= budget.kvReserve
              && (d.reserve == d.estimated || d.reserve == budget.kvReserve)
              && (left <= 0 ==> d.allowance == 0) && (left > 0 ==> 4 * d.allowance <= left < 4 * d.allowance + 4)
              && WithReserve(budget, d) == budget.(kvReserve := d.reserve)
  {
    hide EstimateBf16; hide Quantized;
  }

  lemma FewerBitsSmaller(bf16: nat, groupSize: nat)
    requires groupSize > 0
    ensures Quantized(bf16, 4, groupSize) <= Quantized(bf16, 8, groupSize)
  {
  }

  lemma AllowanceShrinks(budget: M.Config, snapshot: M.Snapshot, a: int, b: int)
    requires a <= b
    ensures Allowance(budget, snapshot, b) <= Allowance(budget, snapshot, a)
  {
  }

  /** With a longer context or a larger shell `auto` only ever moves to fewer bits. */
  lemma AutoOnlyMovesDown(config: TextConfig, small: KvConfig, large: KvConfig, shell: int, shell': int,
                          budget: M.Config, snapshot: M.Snapshot)
    requires small.mode == large.mode == Auto && small.groupSize == large.groupSize > 0
    requires small.context <= large.context && shell <= shell'
    ensures var a, b := Resolve(small, config, shell, budget, snapshot), Resolve(large, config, shell', budget, snapshot);
            && (a.Ok? <==> b.Ok?)
            && (a.Ok? ==> ModeBits(b.value.effective) <= ModeBits(a.value.effective) &&
                          b.value.allowance <= a.value.allowance && a.value.estimatedBf16 <= b.value.estimatedBf16)
  {
    EstimateGrows(config, small.context, large.context);
    AllowanceShrinks(budget, snapshot, shell, shell');
    if EstimateBf16(config, small.context).Ok? {
      hide Quantized; hide Allowance; hide EstimateBf16;
      QuantizedGrows(EstimateBf16(config, small.context).value, EstimateBf16(config, large.context).value, 8, small.groupSize);
    }
  }

  /** `memory_config_with_kv_reserve`. */
  function WithReserve(budget: M.Config, decision: Decision): M.Config {
    budget.(kvReserve := decision.reserve)
  }

  /** Every cached plan made with the resolved reservation leaves room for the KV cache of the
      whole context in the chosen precision, beside the experts, the shell, the scratch space
      and the margin. */
  lemma PlanHoldsWholeContext(requested: KvConfig, config: TextConfig, shell: int, budget: M.Config,
                              snapshot: M.Snapshot,
                              expertBudget: C.Option<int>, auto: bool, minimum: int)
    requires requested.groupSize > 0 && Resolve(requested, config, shell, budget, snapshot).Ok?
    ensures var decision := Resolve(requested, config, shell, budget, snapshot).value;
            var planned := M.Plan(WithReserve(budget, decision), snapshot, shell, expertBudget, auto, minimum);
            planned.Planned? && planned.decision.expertBudget.Some? ==>
              && minimum <= planned.decision.available
              && planned.decision.expertBudget.value + shell + Estimate(decision.effective, decision.estimatedBf16, requested.groupSize)
                 + budget.scratchReserve + budget.safetyMargin <= planned.decision.workingSet
              && decision.reserve >= budget.kvReserve
  {
    var decision := Resolve(requested, config, shell, budget, snapshot).value;
    hide Quantized; hide EstimateBf16; hide Allowance; hide M.WorkingSet;
    M.PlanFitsWorkingSet(WithReserve(budget, decision), snapshot, shell, expertBudget, auto, minimum);
  }
}
