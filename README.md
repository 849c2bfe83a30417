# ConvInteger code generation, modelled in Dafny

This project models the `ConvInteger` node of the onnx2c compiler
(`src/nodes/convinteger.h`, namespace `toC`). onnx2c turns an ONNX graph into C
source. The node handles the ONNX `ConvInteger` operator (opset 10): a 2-D
convolution over integer tensors. It takes an optional input zero point. It
also has a local, non-standard mode that requantizes the output to 8 bits.

The model has two parts.

- **Resolution.** `resolve()` registers the node's inputs and checks the
  configuration in source order. The first unsupported feature aborts:
  a weight zero point, then data that is not rank 4, then a group other
  than 1, then a dilation other than 1. If every check passes, it creates the
  output tensor `y`. That tensor is INT8 in quantize mode and INT32 otherwise.
  `ToC.ConvInteger.Resolve` is an imperative method over the node's fields.
  `ToC.ResolveOutcome` is the pure decision table it is proved against.
- **The per-cell arithmetic.** Three callbacks produce C text for each output
  cell: init, calc (once per kernel tap) and finalize. The model holds these
  fragments three ways:
  - the literal text, as `PrintOutputCellInit/Calc/Finalize`;
  - the same statements as a small syntax tree (module `CFragment`), which is
    proved to render to exactly that text;
  - the tree's meaning, from an interpreter over the cell's variables.
  `ToC.RunCell` runs init, then calc once per tap the loop driver supplies,
  then finalize. It is proved to leave
  `Σ (x - x_zero) * w` in the output element. In quantize mode it leaves that
  sum divided by `k0*k1*16` with C's truncating division, then clamped to
  [-127, 127].

Modules: `Wrappers` (Option, Result); `CArith` (C's truncating `/`, and the
decimal text `std::ostream` writes for an `int`, with its parse-back);
`CFragment` (the emitted statements: spelling and meaning); `ToC` (the node).

Two details of the source that the model keeps:
- `resolve()` checks `group` (convinteger.h:96-97) before the dilations
  (convinteger.h:99-101). A node with both unsupported fails with the grouping error.
- The emitted `/` (convinteger.h:59) truncates toward zero, so -143/144 is 0,
  not floor's -1 (`CArith.TruncDivExample`).

## Model

| member | source | states |
|---|---|---|
| `ToC.ResolveOutcome` | src/nodes/convinteger.h:80-111 | Each error occurs exactly when its check is the first to fail, in source order: weight zero point, then rank ≠ 4, then group ≠ 1, then a dilation ≠ 1. Success happens exactly when all four checks pass. The output tensor then has the resolved output dims and element type OutputType(quantize). |
| `ToC.OutputType` | src/nodes/convinteger.h:105-109 | The output type is INT8 exactly when quantizing, and INT32 exactly when not. |
| `ToC.WeightZeroPointRefusedFirst` | src/nodes/convinteger.h:82-85 | With a fourth input, resolution fails with the weight-zero-point error, whatever the rank, group and dilations are. |
| `ToC.QuantizeOnlyChangesType` | src/nodes/convinteger.h:103-111 | The quantize option never causes or prevents a failure, and never changes the output shape. It only switches the output type between INT8 and INT32. |
| `ToC.ResolveRejections` | src/nodes/convinteger.h:82-101 | Concrete nodes: 5-D data gives NonImageData, group 2 gives Grouping, a 4th input gives WeightZeroPoints, and dilations [1,2] give NonUnitDilation. |
| `ToC.InputBindings` | src/nodes/convinteger.h:75-84 | The inputs are registered in order as x, w, then x_zero_point and w_zero_point if those inputs exist. The k-th binding holds the k-th input. The names are "x" and "w", then "x_zero_point" for a third input and "w_zero_point" for a fourth. |
| `ToC.InputTypesIgnored` | src/nodes/convinteger.h:87-109 | Resolution reads only the number of inputs and the data tensor's rank. Retyping the data tensor (int8 to uint8, say) changes neither the outcome nor the output type. |
| `ToC.ConvInteger.constructor` | src/nodes/convinteger.h:17-22 | A new node has op name "ConvInteger", auto_pad "NOTSET", group 1, no x, w or y, and empty registries. |
| `ToC.ConvInteger.Resolve` | src/nodes/convinteger.h:73-112 | The outcome equals ResolveOutcome of the node. x and w are bound to inputs 0 and 1. The registered inputs grow by exactly InputBindings(inputs). Dilations and kernel shape are stored only once the rank check passes. On success, y is the new tensor and exactly one output named "y" is registered. On abort, y and the outputs are unchanged. The dilation loop is proved against AllUnit. |
| `ToC.ZeroPointBindingAgrees` | src/nodes/convinteger.h:39-42 | Resolve registers an `x_zero_point` input (lines 80-81) exactly when calc subtracts `x_zero_point[0]` rather than the literal 0. That registered input is the third input. |
| `ToC.PrintOutputCellFinalize` | src/nodes/convinteger.h:54-64 | Without quantization, finalize emits nothing. |
| `ToC.InitTextIsCode` | src/nodes/convinteger.h:24-30 | The init text is exactly the rendering of the init code: `int32_t cell = 0;` or `y[b][m][o0][o1] = 0;`. |
| `ToC.CalcTextIsCode` | src/nodes/convinteger.h:32-52 | The calc text is exactly the rendering of two statements: the declaration of `w_`, and the `+=` of `(x - x_zero) * w_` into the accumulator. |
| `ToC.PrintOutputCellInit` | src/nodes/convinteger.h:24-30 | Init emits one line that sets to 0 the same accumulator calc adds into (`Accumulator`). When that accumulator is `cell`, the line declares it as `int32_t`. |
| `ToC.PrintOutputCellCalc` | src/nodes/convinteger.h:32-52 | Calc emits the `w_` declaration, then one line that adds into the accumulator `Accumulator(quantize)`. That line subtracts the zero point `ZeroPointOperand` chooses: `x_zero_point[0]` with three or more inputs, the literal 0 otherwise. |
| `ToC.AccumulateText` | src/nodes/convinteger.h:51 | The tree that adds `(x - zero) * w_` into an accumulator spells `<acc>+= (x[b][c][i0+k0][i1+k1] - <zero>) * w_;`, character for character, for every accumulator and zero-point expression. |
| `ToC.FinalizeTextIsCode` | src/nodes/convinteger.h:54-64 | The finalize text is exactly the rendering of the finalize code: the quotient, two clamps and the store. |
| `ToC.Divisor` | src/nodes/convinteger.h:58 | The divisor is a multiple of 16, and at least 16 when both kernel dimensions are positive. |
| `ToC.QuotientText` | src/nodes/convinteger.h:59 | The quotient declaration spells `int32_t tmp = cell/<divisor>;`. |
| `ToC.SaturationText` | src/nodes/convinteger.h:60-62 | The two clamp statements and the final store spell the source's lines character for character. |
| `CArith.DecimalText` | src/nodes/convinteger.h:59 | The printed divisor is non-empty and starts with '-' exactly when it is negative. A non-zero divisor has no leading zero, so C does not read it as octal. |
| `CArith.DecimalRoundTrip` | src/nodes/convinteger.h:59 | The printed divisor parses back to the same integer. |
| `CArith.TruncDiv` | src/nodes/convinteger.h:59 | The emitted `cell/divisor` is C's truncating quotient. Its magnitude is the largest multiple of the divisor not above the dividend's magnitude, and its sign is the product of the operands' signs. |
| `CArith.TruncDivUnique` | src/nodes/convinteger.h:59 | TruncDiv is the only quotient meeting that description. |
| `CArith.TruncDivNegate` | src/nodes/convinteger.h:59 | Truncating division is symmetric about zero. |
| `CArith.TruncDivSmallDividend` | src/nodes/convinteger.h:59 | A dividend smaller in magnitude than the divisor gives 0, even when it is negative. |
| `CArith.TruncDivExample` | src/nodes/convinteger.h:59 | -143 / 144 is 0 in C, while Dafny's Euclidean quotient is -1. |
| `ToC.Saturate127` | src/nodes/convinteger.h:60-61 | The two conditional assignments to tmp give a value in [-127, 127]. In-range values are kept, and larger or smaller ones are clamped to 127 or -127. |
| `ToC.SaturateIdempotent` | src/nodes/convinteger.h:60-61 | Clamping twice is the same as clamping once. |
| `ToC.CellValue` | src/nodes/convinteger.h:54-64 | The reference value of a finished cell. Without quantization it is the exact sum. With quantization it lies in [-127, 127], and it equals the truncated quotient whenever that quotient is in range. |
| `ToC.InitZeroesAccumulator` | src/nodes/convinteger.h:24-30 | Running init sets the accumulator to 0: `cell` when quantizing, the output element otherwise. |
| `ToC.CalcAddsTap` | src/nodes/convinteger.h:38-51 | Running calc adds `(x - z) * w` to the same accumulator that init targets. z is x_zero_point[0] with three or more inputs and 0 otherwise. The only other change is to `w_`. |
| `ToC.FinalizeStoresCell` | src/nodes/convinteger.h:54-64 | When quantizing, finalize stores Saturate127(TruncDiv(cell, k0*k1*16)) in tmp and the output element. Otherwise it changes nothing. |
| `ToC.RunCell` | src/nodes/convinteger.h:24-64 | Init, then calc once per tap, then finalize leave CellValue in the output element. Without quantization that is the exact sum of `(x - z) * w` over the taps. With quantization it is the clamped truncated quotient. The loop invariant keeps the accumulator equal to the sum over the taps visited so far. |
| `ToC.UnquantizedCellIsSum` | src/nodes/convinteger.h:54-64 | Without quantization the cell is exactly the sum, and finalize emits no text and no code. |
| `ToC.QuantizedCellInRange` | src/nodes/convinteger.h:56-62 | When quantizing with positive kernel dims, the divisor is positive. The cell lies in [-127, 127], and it equals the truncated quotient whenever that quotient is in range. |
| `ToC.KernelSumOfEqualTaps` | src/nodes/convinteger.h:51 | n equal taps sum to n times one tap's product. |
| `ToC.NineTapExample` | src/nodes/convinteger.h:51-62 | For a 3x3 kernel of ones over input 2 with zero point 1, the cell is 9 without quantization. With quantization it is 0, since 9 / 144 truncates to 0. |

## Left out

- `print()` (convinteger.h:67-71) is not modelled, because it only calls `print_header_info_comment` and `print_loop_with_padding_checks`. Those two helpers and the loop driver live in `spatialfilter.h`, which is not part of this model. `RunCell` takes the driver's sequence of valid kernel taps as a parameter.
- The helpers `resolve_strides`, `resolve_dilations`, `resolve_pads`, `resolve_kernel_shape` and `resolve_output_size` are also in `spatialfilter.h`. Their results (dilations, kernel shape, output dims) are parameters of `Resolve`. Strides and pads are not modelled. Any abort inside those helpers is not modelled. Nothing is claimed about the output-shape formula.
- The tensor registry, `new Tensor` ownership and the ONNX protobuf enums are foreign graph plumbing. Tensors are values, so aliasing between the node's pointers and the graph's tensors is not captured. Element types are a three-value datatype: int8 and uint8 inputs, and the two output types (`ToC.InputTypesIgnored` shows the input type plays no part in resolution).
- `ERROR` aborts compilation. `Resolve` returns `Err` instead, and leaves the node's fields as they were at the point of the abort.
- The global `options.quantize` is a parameter.
- `INDT_3`, `INDT_4`, `constant_acces_code` and `w->data_type_str()` are defined elsewhere. Their results are opaque strings (`Formatting`). The interpreter reads the two access spellings as the weight at the current tap and `x_zero_point[0]`.
- `RunCell`, `CalcAddsTap`, `FinalizeStoresCell`: these do not model the fixed-width arithmetic of the generated C. `int32_t` and the weight type's overflow and promotion rules are absent, and neither is the store of `tmp` into an 8-bit output (in range after the clamp). Integers are unbounded.
- `Divisor`: the generator's own `int` overflow in `kernel_shape[0]*kernel_shape[1]*16` is not modelled.
- Division by zero (a zero kernel dimension in quantize mode) is undefined in C. The interpreter makes it an undefined run (`None`), and `RunCell` requires a non-zero divisor.
