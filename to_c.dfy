/** The ConvInteger node of the onnx2c code generator (namespace `toC`): the
    integer 2-D convolution of the ONNX operator set, with an optional input zero
    point and an optional, non-standard requantization to 8 bits.

    `resolve()` validates the node and creates its output tensor; the three
    `print_output_cell_*` callbacks emit the C text that the shared loop driver
    places around each output cell (init), inside the loop over kernel taps
    (calc) and after it (finalize). */
module ToC {
  import opened Wrappers
  import opened CArith
  import opened CFragment

  // ======================================================================
  // Tensors and resolution
  // ======================================================================

  /** The element types that matter here: the int8/uint8 inputs and the two
      output types the node chooses between. */
  datatype ElemType = Int8 | UInt8 | Int32

  datatype Tensor = Tensor(dims: seq<int>, dataType: ElemType)

  /** A tensor registered with the node under the name the generated code uses. */
  datatype Binding = Binding(tensor: Tensor, name: string)

  /** The unsupported configurations `resolve()` aborts on. */
  datatype ResolveError =
    | WeightZeroPoints   // a fourth input, the weight zero point
    | NonImageData       // data tensor of rank other than 4
    | Grouping           // group attribute other than 1
    | NonUnitDilation    // some dilation other than 1

  /** What resolution looks at: the number of inputs, the rank of the data
      tensor, the group attribute, the dilations and output dimensions the
      shared spatial-filter helpers resolved, and the quantize option. */
  datatype NodeDescription = NodeDescription(
    numInputs: nat, dataRank: nat, group: int,
    dilations: seq<int>, outputDims: seq<int>, quantize: bool)

  predicate AllUnit(ds: seq<int>) {
    forall i :: 0 <= i < |ds| ==> ds[i] == 1
  }

  /** INT8 under local quantization (not what the ONNX operator specifies), INT32
      otherwise. */
  function OutputType(quantize: bool): (t: ElemType)
    ensures t == Int8 <==> quantize
    ensures t == Int32 <==> !quantize
  {
    if quantize then Int8 else Int32
  }

  /** The outcome of `resolve()`: the first failing check in source order aborts
      with its error; otherwise the new output tensor. */
  function ResolveOutcome(d: NodeDescription): (r: Result<Tensor, ResolveError>)
    ensures r == Err(WeightZeroPoints) <==> d.numInputs > 3
    ensures r == Err(NonImageData) <==> d.numInputs <= 3 && d.dataRank != 4
    ensures r == Err(Grouping) <==> d.numInputs <= 3 && d.dataRank == 4 && d.group != 1
    ensures r == Err(NonUnitDilation) <==>
      d.numInputs <= 3 && d.dataRank == 4 && d.group == 1 && !AllUnit(d.dilations)
    ensures r.Ok? <==> d.numInputs <= 3 && d.dataRank == 4 && d.group == 1 && AllUnit(d.dilations)
    ensures r.Ok? ==> r.value.dims == d.outputDims && r.value.dataType == OutputType(d.quantize)
  {
    if d.numInputs > 3 then Err(WeightZeroPoints)
    else if d.dataRank != 4 then Err(NonImageData)
    else if d.group != 1 then Err(Grouping)
    else if !AllUnit(d.dilations) then Err(NonUnitDilation)
    else Ok(Tensor(d.outputDims, OutputType(d.quantize)))
  }

  /** A weight zero point is refused whatever else the node says. */
  lemma WeightZeroPointRefusedFirst(d: NodeDescription, rank: nat, group: int, dilations: seq<int>)
    requires d.numInputs > 3
    ensures ResolveOutcome(d.(dataRank := rank, group := group, dilations := dilations))
      == Err(WeightZeroPoints)
  {
  }

  /** The quantize option changes the output type and nothing else: it neither
      causes nor prevents a failure, and the output shape is the same. */
  lemma QuantizeOnlyChangesType(d: NodeDescription)
    ensures var on := ResolveOutcome(d.(quantize := true));
      var off := ResolveOutcome(d.(quantize := false));
      on.Ok? == off.Ok? && (on.Err? ==> on.error == off.error)
      && (on.Ok? ==> on.value.dims == off.value.dims
                     && on.value.dataType == Int8 && off.value.dataType == Int32)
  {
  }

  /** The inputs `resolve()` registers, in order, before any check can fail. */
  function InputBindings(inputs: seq<Tensor>): (bs: seq<Binding>)
    requires |inputs| >= 2
    ensures |bs| == if |inputs| >= 4 then 4 else |inputs|
    ensures forall k :: 0 <= k < |bs| ==> bs[k].tensor == inputs[k]
    ensures bs[0].name == "x" && bs[1].name == "w"
    ensures |inputs| > 2 ==> bs[2].name == "x_zero_point"
    ensures |inputs| > 3 ==> bs[3].name == "w_zero_point"
  {
    [Binding(inputs[0], "x"), Binding(inputs[1], "w")]
    + (if |inputs| > 2 then [Binding(inputs[2], "x_zero_point")] else [])
    + (if |inputs| > 3 then [Binding(inputs[3], "w_zero_point")] else [])
  }

  /** The element types of the inputs (int8 or uint8 data, say) play no part in
      resolution: only their number and the data tensor's rank do. */
  lemma InputTypesIgnored(inputs: seq<Tensor>, group: int, dilations: seq<int>,
                          outputDims: seq<int>, quantize: bool)
    requires |inputs| >= 1
    ensures var retyped := inputs[0 := Tensor(inputs[0].dims, UInt8)];
      ResolveOutcome(Describe(retyped, group, dilations, outputDims, quantize))
        == ResolveOutcome(Describe(inputs, group, dilations, outputDims, quantize))
  {
  }

  function Describe(inputs: seq<Tensor>, group: int, dilations: seq<int>,
                    outputDims: seq<int>, quantize: bool): NodeDescription
    requires |inputs| >= 1
  {
    NodeDescription(|inputs|, |inputs[0].dims|, group, dilations, outputDims, quantize)
  }

  class ConvInteger {
    const opName: string
    var autoPad: string
    var group: int
    /** The node's inputs as the graph gives them: data, weights, then the
        optional input and weight zero points. */
    var inputs: seq<Tensor>
    var x: Option<Tensor>
    var w: Option<Tensor>
    var y: Option<Tensor>
    /** Set by the shared spatial-filter helpers during resolution. */
    var dilations: seq<int>
    var kernelShape: seq<int>
    var registeredInputs: seq<Binding>
    var registeredOutputs: seq<Binding>

    constructor ()
      ensures opName == "ConvInteger" && autoPad == "NOTSET" && group == 1
      ensures x == None && w == None && y == None
      ensures inputs == [] && registeredInputs == [] && registeredOutputs == []
      ensures dilations == [] && kernelShape == []
    {
      opName := "ConvInteger";
      autoPad := "NOTSET";
      group := 1;
      x, w, y := None, None, None;
      inputs := [];
      dilations, kernelShape := [], [];
      registeredInputs, registeredOutputs := [], [];
    }

    /** `resolve()`. The shared helpers' results (dilations, kernel shape,
        output dimensions) are parameters; an abort returns the error. */
    method Resolve(quantize: bool, resolvedDilations: seq<int>, resolvedKernelShape: seq<int>,
                   outputDims: seq<int>) returns (outcome: Result<Tensor, ResolveError>)
      requires |inputs| >= 2
      modifies this
      ensures inputs == old(inputs) && group == old(group) && autoPad == old(autoPad)
      ensures outcome == ResolveOutcome(Describe(inputs, group, resolvedDilations, outputDims, quantize))
      ensures x == Some(inputs[0]) && w == Some(inputs[1])
      ensures registeredInputs == old(registeredInputs) + InputBindings(inputs)
      ensures if |inputs| <= 3 && |inputs[0].dims| == 4
              then dilations == resolvedDilations && kernelShape == resolvedKernelShape
              else dilations == old(dilations) && kernelShape == old(kernelShape)
      ensures outcome.Ok? ==>
        y == Some(outcome.value) && registeredOutputs == old(registeredOutputs) + [Binding(outcome.value, "y")]
      ensures outcome.Err? ==> y == old(y) && registeredOutputs == old(registeredOutputs)
    {
      ghost var bindings := InputBindings(inputs);
      ghost var before := registeredInputs;
      x := Some(inputs[0]);
      registeredInputs := registeredInputs + [Binding(inputs[0], "x")];
      w := Some(inputs[1]);
      registeredInputs := registeredInputs + [Binding(inputs[1], "w")];
      assert registeredInputs == before + bindings[..2];

      if |inputs| > 2 {
        registeredInputs := registeredInputs + [Binding(inputs[2], "x_zero_point")];
        assert bindings[..3] == bindings[..2] + [bindings[2]];
        assert registeredInputs == before + bindings[..3];
      }
      if |inputs| > 3 {
        registeredInputs := registeredInputs + [Binding(inputs[3], "w_zero_point")];
        assert bindings == bindings[..3] + [bindings[3]];
        return Err(WeightZeroPoints);
      }
      assert bindings[..|inputs|] == bindings;

      if |x.value.dims| != 4 {
        return Err(NonImageData);
      }

      dilations := resolvedDilations;
      kernelShape := resolvedKernelShape;

      if group != 1 {
        return Err(Grouping);
      }

      var i := 0;
      while i < |dilations|
        invariant 0 <= i <= |dilations|
        invariant forall j :: 0 <= j < i ==> dilations[j] == 1
      {
        if dilations[i] != 1 {
          return Err(NonUnitDilation);
        }
        i := i + 1;
      }

      var rv := Tensor(outputDims, if quantize then Int8 else Int32);
      y := Some(rv);
      registeredOutputs := registeredOutputs + [Binding(rv, "y")];
      outcome := Ok(rv);
    }
  }

  /** The tensor registered as `x_zero_point` by `resolve()` exists exactly when
      the calc callback subtracts `x_zero_point[0]` rather than the literal 0, and
      it is the third input. */
  lemma ZeroPointBindingAgrees(fmt: Formatting, inputs: seq<Tensor>)
    requires |inputs| >= 2
    ensures (exists k :: 0 <= k < |InputBindings(inputs)| && InputBindings(inputs)[k].name == "x_zero_point")
            <==> ZeroPointOperand(fmt, |inputs|) == DataZeroPoint(fmt.zeroPointAccess)
    ensures |inputs| >= 3 ==> InputBindings(inputs)[2] == Binding(inputs[2], "x_zero_point")
  {
    var bs := InputBindings(inputs);
    if |inputs| >= 3 {
      assert bs[2].name == "x_zero_point";
    } else {
      assert bs == [Binding(inputs[0], "x"), Binding(inputs[1], "w")];
      assert forall k :: 0 <= k < |bs| ==> bs[k].name != "x_zero_point";
    }
  }

  // ======================================================================
  // The emitted text
  // ======================================================================

  /** Text the generator takes from helpers defined elsewhere: the INDT_3 and
      INDT_4 indentations, the weight tensor's C type name, and the spellings
      the constant-access helper gives to `w[m][c][k0][k1]` and
      `x_zero_point[0]`. */
  datatype Formatting = Formatting(
    indent3: string, indent4: string, weightType: string,
    weightAccess: string, zeroPointAccess: string)

  /** `print_output_cell_init`: one line that sets the accumulator calc adds
      into to 0, declaring it first when it is the local `cell`. */
  function PrintOutputCellInit(fmt: Formatting, quantize: bool): (text: string)
    ensures text == Line(fmt.indent3, (if quantize then "int32_t " else "")
                                      + VarName(Accumulator(quantize)) + " = 0;")
  {
    if quantize then Line(fmt.indent3, "int32_t cell = 0;")
    else Line(fmt.indent3, "y[b][m][o0][o1] = 0;")
  }

  /** `print_output_cell_calc`; `numInputs` is `inputs.size()`. The second line
      adds into the accumulator init set up and subtracts the zero point
      `ZeroPointOperand` chooses. */
  function PrintOutputCellCalc(fmt: Formatting, quantize: bool, numInputs: nat): (text: string)
    ensures text == Line(fmt.indent4, fmt.weightType + " w_ = " + fmt.weightAccess + ";")
      + Line(fmt.indent4, VarName(Accumulator(quantize)) + "+= (x[b][c][i0+k0][i1+k1] - "
                          + ExprText(ZeroPointOperand(fmt, numInputs)) + ") * w_;")
  {
    assert DecimalText(0) == "0";
    var xZero := if numInputs >= 3 then fmt.zeroPointAccess else "0";
    var dest := if quantize then "cell" else "y[b][m][o0][o1]";
    Line(fmt.indent4, fmt.weightType + " w_ = " + fmt.weightAccess + ";")
    + Line(fmt.indent4, dest + "+= (x[b][c][i0+k0][i1+k1] - " + xZero + ") * w_;")
  }

  /** `kernel_shape[0]*kernel_shape[1]*16`: a multiple of 16, and positive when
      both kernel dimensions are. */
  function Divisor(kernelShape: seq<int>): (d: int)
    requires |kernelShape| >= 2
    ensures d % 16 == 0
    ensures kernelShape[0] > 0 && kernelShape[1] > 0 ==> d >= 16
  {
    var k0, k1 := kernelShape[0], kernelShape[1];
    if k0 > 0 && k1 > 0 then
      MulMonotone(1, k0, k1);
      k0 * k1 * 16
    else
      k0 * k1 * 16
  }

  /** `print_output_cell_finalize`: nothing unless quantizing. */
  function PrintOutputCellFinalize(fmt: Formatting, quantize: bool, kernelShape: seq<int>): (text: string)
    requires quantize ==> |kernelShape| >= 2
    ensures !quantize ==> text == ""
  {
    if quantize then
      Line(fmt.indent3, "int32_t tmp = cell/" + DecimalText(Divisor(kernelShape)) + ";")
      + Line(fmt.indent3, "tmp = tmp > 127?127:tmp;")
      + Line(fmt.indent3, "tmp = tmp < -127?-127:tmp;")
      + Line(fmt.indent3, "y[b][m][o0][o1] = tmp;")
    else ""
  }

  // ---------- the same text as code ----------

  /** The variable init and calc both target: `cell` when quantizing, the output
      element itself otherwise. */
  function Accumulator(quantize: bool): (v: Var)
    ensures v != WeightCopy && v != Tmp
  {
    if quantize then Cell else OutputCell
  }

  function InitCode(quantize: bool): seq<Stmt> {
    if quantize then [Declare("int32_t", Cell, Lit(0))] else [Assign(OutputCell, Lit(0))]
  }

  /** The zero point the calc callback subtracts: the third input when there is
      one, the literal 0 otherwise. */
  function ZeroPointOperand(fmt: Formatting, numInputs: nat): Expr {
    if numInputs >= 3 then DataZeroPoint(fmt.zeroPointAccess) else Lit(0)
  }

  function CalcCode(fmt: Formatting, quantize: bool, numInputs: nat): seq<Stmt> {
    [ Declare(fmt.weightType, WeightCopy, WeightAtTap(fmt.weightAccess)),
      AddAssign(Accumulator(quantize), Times(Minus(DataAtTap, ZeroPointOperand(fmt, numInputs)), Ref(WeightCopy))) ]
  }

  function FinalizeCode(quantize: bool, kernelShape: seq<int>): seq<Stmt>
    requires quantize ==> |kernelShape| >= 2
  {
    if quantize then
      [ Declare("int32_t", Tmp, Quotient(Ref(Cell), Lit(Divisor(kernelShape)))),
        Assign(Tmp, Select(Ref(Tmp), Greater, Lit(127), Lit(127), Ref(Tmp))),
        Assign(Tmp, Select(Ref(Tmp), Less, Lit(-127), Lit(-127), Ref(Tmp))),
        Assign(OutputCell, Ref(Tmp)) ]
    else []
  }

  lemma InitTextIsCode(fmt: Formatting, quantize: bool)
    ensures PrintOutputCellInit(fmt, quantize) == BlockText(fmt.indent3, InitCode(quantize))
  {
    var code := InitCode(quantize);
    assert DecimalText(0) == "0";
    if quantize {
      assert StmtText(code[0]) == "int32_t cell = 0;";
    } else {
      assert StmtText(code[0]) == "y[b][m][o0][o1] = 0;";
    }
    assert code[1..] == [];
  }

  lemma CalcTextIsCode(fmt: Formatting, quantize: bool, numInputs: nat)
    ensures PrintOutputCellCalc(fmt, quantize, numInputs)
            == BlockText(fmt.indent4, CalcCode(fmt, quantize, numInputs))
  {
    var code := CalcCode(fmt, quantize, numInputs);
    var xZero := if numInputs >= 3 then fmt.zeroPointAccess else "0";
    var dest := if quantize then "cell" else "y[b][m][o0][o1]";
    assert DecimalText(0) == "0";
    assert ExprText(ZeroPointOperand(fmt, numInputs)) == xZero;
    assert VarName(Accumulator(quantize)) == dest;

    assert StmtText(code[0]) == fmt.weightType + " w_ = " + fmt.weightAccess + ";";
    AccumulateText(Accumulator(quantize), ZeroPointOperand(fmt, numInputs));
    assert StmtText(code[1]) == dest + "+= (x[b][c][i0+k0][i1+k1] - " + xZero + ") * w_;";
    BlockTextTwo(fmt.indent4, code);
  }

  /** The spelling of calc's accumulating statement: the tree adding
      `(x - zero) * w_` into `acc` is the source's line. */
  lemma AccumulateText(acc: Var, zero: Expr)
    ensures StmtText(AddAssign(acc, Times(Minus(DataAtTap, zero), Ref(WeightCopy))))
            == VarName(acc) + "+= (x[b][c][i0+k0][i1+k1] - " + ExprText(zero) + ") * w_;"
  {
    var dest, xZero := VarName(acc), ExprText(zero);
    var product := "(" + "x[b][c][i0+k0][i1+k1]" + " - " + xZero + ")" + " * " + "w_";
    assert ExprText(Times(Minus(DataAtTap, zero), Ref(WeightCopy))) == product;
    RegroupAccumulate(dest, xZero);
  }

  lemma RegroupAccumulate(dest: string, xZero: string)
    ensures dest + "+= " + ("(" + "x[b][c][i0+k0][i1+k1]" + " - " + xZero + ")" + " * " + "w_") + ";"
            == dest + "+= (x[b][c][i0+k0][i1+k1] - " + xZero + ") * w_;"
  {
    var minus := "(" + "x[b][c][i0+k0][i1+k1]" + " - " + xZero + ")";
    assert "(" + "x[b][c][i0+k0][i1+k1]" + " - " == "(x[b][c][i0+k0][i1+k1] - ";
    var product := minus + " * " + "w_";
    assert product == "(x[b][c][i0+k0][i1+k1] - " + xZero + ") * w_";
    assert dest + "+= " + product == dest + "+= (x[b][c][i0+k0][i1+k1] - " + xZero + ") * w_";
  }

  lemma FinalizeTextIsCode(fmt: Formatting, quantize: bool, kernelShape: seq<int>)
    requires quantize ==> |kernelShape| >= 2
    ensures PrintOutputCellFinalize(fmt, quantize, kernelShape)
            == BlockText(fmt.indent3, FinalizeCode(quantize, kernelShape))
  {
    if quantize {
      var code := FinalizeCode(quantize, kernelShape);
      QuotientText(Divisor(kernelShape));
      SaturationText();
      BlockTextFour(fmt.indent3, code);
    }
  }

  /** The spelling of finalize's first statement. */
  lemma QuotientText(divisor: int)
    ensures StmtText(Declare("int32_t", Tmp, Quotient(Ref(Cell), Lit(divisor))))
            == "int32_t tmp = cell/" + DecimalText(divisor) + ";"
  {
    var d := DecimalText(divisor);
    assert ExprText(Quotient(Ref(Cell), Lit(divisor))) == "cell" + "/" + d;
    assert "int32_t" + " " + "tmp" + " = " == "int32_t tmp = ";
    assert "int32_t tmp = " + ("cell" + "/" + d) == "int32_t tmp = cell/" + d;
  }

  /** The spelling of finalize's last three statements. */
  lemma SaturationText()
    ensures StmtText(Assign(Tmp, Select(Ref(Tmp), Greater, Lit(127), Lit(127), Ref(Tmp))))
            == "tmp = tmp > 127?127:tmp;"
    ensures StmtText(Assign(Tmp, Select(Ref(Tmp), Less, Lit(-127), Lit(-127), Ref(Tmp))))
            == "tmp = tmp < -127?-127:tmp;"
    ensures StmtText(Assign(OutputCell, Ref(Tmp))) == "y[b][m][o0][o1] = tmp;"
  {
    DecimalLiterals();
    ClampText(Greater, 127);
    ClampText(Less, -127);
    assert " > " + "127" + "?" + "127" + ":" + "tmp" + ";" == " > 127?127:tmp;";
    assert " < " + "-127" + "?" + "-127" + ":" + "tmp" + ";" == " < -127?-127:tmp;";
  }

  /** `tmp = tmp <op> <bound>?<bound>:tmp;` */
  lemma ClampText(op: Comparison, bound: int)
    ensures StmtText(Assign(Tmp, Select(Ref(Tmp), op, Lit(bound), Lit(bound), Ref(Tmp))))
      == "tmp = tmp" + (ComparisonText(op) + DecimalText(bound) + "?" + DecimalText(bound) + ":" + "tmp" + ";")
  {
    var b := DecimalText(bound);
    var rest := ComparisonText(op) + b + "?" + b + ":" + "tmp";
    assert ExprText(Select(Ref(Tmp), op, Lit(bound), Lit(bound), Ref(Tmp))) == "tmp" + rest;
    assert "tmp" + " = " + ("tmp" + rest) + ";" == "tmp = tmp" + (rest + ";");
  }

  lemma DecimalLiterals()
    ensures DecimalText(127) == "127" && DecimalText(-127) == "-127"
  {
    assert NatText(1) == "1";
    assert NatText(12) == NatText(1) + "2";
    assert NatText(127) == NatText(12) + "7";
  }

  // ======================================================================
  // What the emitted code computes
  // ======================================================================

  /** One valid kernel tap as the loop driver visits it: the input element and
      the weight under it. */
  datatype Tap = Tap(x: int, w: int)

  /** The input zero point in effect: `x_zero_point[0]` with three inputs or
      more, 0 otherwise. */
  function ZeroPointValue(numInputs: nat, xZeroPoint: int): int {
    if numInputs >= 3 then xZeroPoint else 0
  }

  /** The sum over the visited taps of `(x - x_zero) * w`. */
  function KernelSum(taps: seq<Tap>, xZero: int): int
    decreases |taps|
  {
    if taps == [] then 0
    else KernelSum(taps[..|taps| - 1], xZero) + (taps[|taps| - 1].x - xZero) * taps[|taps| - 1].w
  }

  /** The two conditional assignments to `tmp` in finalize. */
  function Saturate127(v: int): (r: int)
    ensures -127 <= r <= 127
    ensures -127 <= v <= 127 ==> r == v
    ensures v > 127 ==> r == 127
    ensures v < -127 ==> r == -127
  {
    var upper := if v > 127 then 127 else v;
    if upper < -127 then -127 else upper
  }

  lemma SaturateIdempotent(v: int)
    ensures Saturate127(Saturate127(v)) == Saturate127(v)
  {
  }

  /** Finalize is defined in C when it divides by a non-zero divisor. */
  predicate FinalizeDefined(quantize: bool, kernelShape: seq<int>) {
    quantize ==> |kernelShape| >= 2 && Divisor(kernelShape) != 0
  }

  /** The value the output element holds when the cell is done. */
  function CellValue(quantize: bool, kernelShape: seq<int>, xZero: int, taps: seq<Tap>): (v: int)
    requires FinalizeDefined(quantize, kernelShape)
    ensures !quantize ==> v == KernelSum(taps, xZero)
    ensures quantize ==> -127 <= v <= 127
    ensures quantize ==> var q := TruncDiv(KernelSum(taps, xZero), Divisor(kernelShape));
      -127 <= q <= 127 ==> v == q
  {
    if quantize then Saturate127(TruncDiv(KernelSum(taps, xZero), Divisor(kernelShape)))
    else KernelSum(taps, xZero)
  }

  lemma InitZeroesAccumulator(quantize: bool, ops: TapOperands, f: Frame)
    ensures Run(InitCode(quantize), ops, f) == Some(Store(f, Accumulator(quantize), 0))
  {
  }

  lemma CalcAddsTap(fmt: Formatting, quantize: bool, numInputs: nat, ops: TapOperands, f: Frame)
    ensures var acc := Accumulator(quantize);
      var term := (ops.x - ZeroPointValue(numInputs, ops.xZero)) * ops.w;
      Run(CalcCode(fmt, quantize, numInputs), ops, f)
        == Some(Store(Store(f, WeightCopy, ops.w), acc, Load(f, acc) + term))
  {
    var code := CalcCode(fmt, quantize, numInputs);
    var acc := Accumulator(quantize);
    var g := Store(f, WeightCopy, ops.w);
    var term := (ops.x - ZeroPointValue(numInputs, ops.xZero)) * ops.w;
    assert Exec(code[0], ops, f) == Some(g);
    var zero := ZeroPointValue(numInputs, ops.xZero);
    assert Eval(ZeroPointOperand(fmt, numInputs), ops, g) == Some(zero);
    assert Eval(Minus(DataAtTap, ZeroPointOperand(fmt, numInputs)), ops, g) == Some(ops.x - zero);
    assert Eval(Ref(WeightCopy), ops, g) == Some(ops.w);
    assert Load(g, acc) == Load(f, acc);
    assert Exec(code[1], ops, g) == Some(Store(g, acc, Load(f, acc) + term));
    assert code[1..] == [code[1]];
    RunLines(code[1..], ops, g);
    RunLines(code, ops, f);
  }

  lemma FinalizeStoresCell(quantize: bool, kernelShape: seq<int>, ops: TapOperands, f: Frame)
    requires FinalizeDefined(quantize, kernelShape)
    ensures Run(FinalizeCode(quantize, kernelShape), ops, f)
      == Some(if quantize
              then var v := Saturate127(TruncDiv(f.cell, Divisor(kernelShape))); f.(tmp := v, output := v)
              else f)
  {
    if quantize {
      var code := FinalizeCode(quantize, kernelShape);
      var q := TruncDiv(f.cell, Divisor(kernelShape));
      var upper := if q > 127 then 127 else q;
      var v := Saturate127(q);
      assert Eval(Quotient(Ref(Cell), Lit(Divisor(kernelShape))), ops, f) == Some(q);
      assert Exec(code[0], ops, f) == Some(f.(tmp := q));
      assert Eval(Lit(127), ops, f.(tmp := q)) == Some(127);
      assert Eval(Ref(Tmp), ops, f.(tmp := q)) == Some(q);
      assert Eval(code[1].e, ops, f.(tmp := q)) == Some(upper);
      assert Exec(code[1], ops, f.(tmp := q)) == Some(f.(tmp := upper));
      assert Eval(Lit(-127), ops, f.(tmp := upper)) == Some(-127);
      assert Eval(Ref(Tmp), ops, f.(tmp := upper)) == Some(upper);
      assert Eval(code[2].e, ops, f.(tmp := upper)) == Some(v);
      assert Exec(code[2], ops, f.(tmp := upper)) == Some(f.(tmp := v));
      assert Exec(code[3], ops, f.(tmp := v)) == Some(f.(tmp := v, output := v));
      RunLines(code, ops, f);
      RunLines(code[1..], ops, f.(tmp := q));
      RunLines(code[1..][1..], ops, f.(tmp := upper));
      assert code[1..][1..][1..] == [code[3]];
      RunLines(code[1..][1..][1..], ops, f.(tmp := v));
    }
  }

  /** One output cell as the loop driver runs it: the init fragment, the calc
      fragment once per valid kernel tap, then the finalize fragment. The output
      element ends up holding CellValue, with the zero point chosen by the
      number of inputs. */
  method RunCell(fmt: Formatting, quantize: bool, numInputs: nat, kernelShape: seq<int>,
                 xZeroPoint: int, taps: seq<Tap>, entry: Frame) returns (y: int)
    requires FinalizeDefined(quantize, kernelShape)
    ensures y == CellValue(quantize, kernelShape, ZeroPointValue(numInputs, xZeroPoint), taps)
  {
    // outside the tap loop the fragments read no tap operands
    var outside := TapOperands(0, 0, xZeroPoint);
    ghost var z := ZeroPointValue(numInputs, xZeroPoint);
    var acc := Accumulator(quantize);

    InitZeroesAccumulator(quantize, outside, entry);
    var f := Run(InitCode(quantize), outside, entry).value;

    var i := 0;
    while i < |taps|
      invariant 0 <= i <= |taps|
      invariant Load(f, acc) == KernelSum(taps[..i], z)
    {
      var ops := TapOperands(taps[i].x, taps[i].w, xZeroPoint);
      CalcAddsTap(fmt, quantize, numInputs, ops, f);
      f := Run(CalcCode(fmt, quantize, numInputs), ops, f).value;
      assert taps[..i + 1][..i] == taps[..i];
      i := i + 1;
    }
    assert taps[..i] == taps;

    FinalizeStoresCell(quantize, kernelShape, outside, f);
    f := Run(FinalizeCode(quantize, kernelShape), outside, f).value;
    y := f.output;
  }

  /** Without quantization the output element is the exact sum, and finalize
      emits nothing. */
  lemma UnquantizedCellIsSum(fmt: Formatting, kernelShape: seq<int>, xZero: int, taps: seq<Tap>)
    ensures CellValue(false, kernelShape, xZero, taps) == KernelSum(taps, xZero)
    ensures PrintOutputCellFinalize(fmt, false, kernelShape) == ""
    ensures FinalizeCode(false, kernelShape) == []
  {
  }

  /** With quantization and a kernel of positive size the divisor is positive,
      the output lies in [-127, 127], and it is the truncated quotient whenever
      that quotient is already in range. */
  lemma QuantizedCellInRange(kernelShape: seq<int>, xZero: int, taps: seq<Tap>)
    requires |kernelShape| >= 2 && kernelShape[0] > 0 && kernelShape[1] > 0
    ensures Divisor(kernelShape) > 0
    ensures var v := CellValue(true, kernelShape, xZero, taps);
      var q := TruncDiv(KernelSum(taps, xZero), Divisor(kernelShape));
      -127 <= v <= 127 && (-127 <= q <= 127 ==> v == q)
  {
    var k0, k1 := kernelShape[0], kernelShape[1];
    assert k0 * k1 >= k1 by { MulMonotone(1, k0, k1); }
  }

  /** Every tap the same: the sum is the tap count times one product. */
  lemma {:induction false} KernelSumOfEqualTaps(n: nat, t: Tap, xZero: int)
    ensures KernelSum(seq(n, _ => t), xZero) == n * ((t.x - xZero) * t.w)
  {
    if n > 0 {
      var s := seq(n, _ => t);
      assert s[..n - 1] == seq(n - 1, _ => t);
      KernelSumOfEqualTaps(n - 1, t, xZero);
    }
  }

  /** A 3x3 kernel of ones over input 2 with zero point 1, nine valid taps: 9
      without quantization, and 9 / 144 truncated, 0, with it. */
  lemma NineTapExample()
    ensures CellValue(false, [3, 3], 1, seq(9, _ => Tap(2, 1))) == 9
    ensures CellValue(true, [3, 3], 1, seq(9, _ => Tap(2, 1))) == 0
  {
    KernelSumOfEqualTaps(9, Tap(2, 1), 1);
    assert Divisor([3, 3]) == 144;
  }

  /** Five-dimensional data, group 2, and a weight zero point each abort with
      their own error. */
  lemma ResolveRejections(dims: seq<int>, quantize: bool)
    ensures ResolveOutcome(NodeDescription(2, 5, 1, [1, 1], dims, quantize)) == Err(NonImageData)
    ensures ResolveOutcome(NodeDescription(3, 4, 2, [1, 1], dims, quantize)) == Err(Grouping)
    ensures ResolveOutcome(NodeDescription(4, 4, 1, [1, 1], dims, quantize)) == Err(WeightZeroPoints)
    ensures ResolveOutcome(NodeDescription(3, 4, 1, [1, 2], dims, quantize)) == Err(NonUnitDilation)
  {
    assert [1, 2][1] != 1;
  }
}
