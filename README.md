# SWEET 2-D grid fields in Dafny

This project models the grid-field layer of SWEET (Shallow Water Equation
Environment for Tests), a C++ library. The layer is made of four pieces, and
the model states and proves the behaviour listed in the table below for each
of them, with the exceptions listed under "Left out".

- `DataArray<2>`: a real field with a Cartesian buffer and a spectral buffer,
  each with a validity flag.
  - It converts lazily between the two through `requestDataInSpectralSpace`
    and `requestDataInCartesianSpace`.
  - It places 3 x 3 stencils periodically with `setup_kernel`.
  - It resamples spectra with `aliasing_scaleUp` and `aliasing_scaleDown`.
  - Its transforms run through two process-wide, reference-counted plan
    singletons: the main one and the aliasing one.
- `Complex2DArrayFFT`: a complex grid of interleaved doubles.
  - It has cell setters.
  - It sets up derivative multipliers (`op_setup_diff*`).
  - It has spectral division with a zero-denominator rule and a fatal
    threshold, and scalar shifts at the mean mode or at every cell.
  - Its plans have their own reference counter.
- `ScalarDataArray`: a flat real buffer.
  - It has a lifecycle (`setup`, `p_free_buffer`, assignment).
  - It has element-wise and scalar arithmetic, and reductions, some with
    Kahan compensation.
- `Operators2D`: a bank of sixteen operator fields.
  - The averaging and shift stencils.
  - Either finite-difference stencils or spectral derivative multipliers.
  - The compositions `laplace`, `diff_dot` and `arakawa_jacobian`.

## How the model is built

- Each C++ class whose fields are updated in place is a Dafny `class`: `DataArrays.DataArray`,
  `ComplexArrays.Complex2DArray`, `ComplexArrays.ComplexPlans`,
  `ScalarArrays.ScalarDataArray`, `FftPlans.FftRegistry` and
  `Operators.Operators2D`.
- Buffers are `array?<real>` fields. `null` stands for a freed or moved-from
  buffer.
- Each loop of the source is a method with loop invariants, proved against a
  specification function on sequences. For example, `Cells.Cellwise`,
  `Kernels.KernelBuffer`, `Dealiasing.UpSpectrum`, `SpectralPatterns.PatternCell`
  and `Reductions.Sum`. Lemmas state the properties of those functions.
- Doubles are `real`: arithmetic is exact.
- The FFTW transform is a capability value with a forward and a backward
  function of which only the output lengths are known (`FftPlans.RealFft`,
  `ComplexArrays.ComplexFft`).
  - The explicit 1/N scaling after a backward transform is modelled.
  - `std::sqrt` is a parameter `sqrt` with the property `Reductions.IsSqrt`.
  - `M_PIl` is a positive constant.
- The plan singletons are an explicit registry object (`FftPlans.FftRegistry`).
  - It has two slots, each absent or present with a counter and the plan it
    was built with.
  - A plan is built from whichever field first asks for it, and is never
    looked up by resolution.
- The source's debug `assert`s are preconditions. Its fatal `exit` paths are
  an explicit result: a `fatal` flag, or `null` in the case of
  `DataArrays.DataArray.ScaleUpDefault`.
- Only the spectral build (`SWEET_USE_SPECTRAL_SPACE == 1`) is modelled.
- Member names are the C++ names in Dafny style (`op_setup_diff_x` is
  `OpSetupDiffX`, and so on). `Operators2D.hpp` calls `spec_setAll` and
  `spec_set` (lines 199-292), which `DataArray.hpp` does not define; the model
  reads them as `setAllSpec` (DataArray.hpp:570) and `setSpec` (527), that is
  `DataArrays.DataArray.SetAllSpec` and `DataArrays.DataArray.SetSpec`.
- `Operators2D::arakawa_jacobian(a, b)` uses only `a`; the model keeps that
  (`Operators.Operators2D.ArakawaJacobian`).

Where the specification of the system and the code disagree, the model
follows the code:

- The specification keys plans by resolution and by the aliasing mark. The
  code keeps two singletons and reuses a singleton's plan whatever the
  resolution (`FftPlans.PlanIsNotKeyedByResolution`).
- The specification says a field always has at least one valid
  representation. In the code, a newly constructed field has none, and the
  result of `operator-(double)` has neither flag set (finding F4).
- The specification says the scalar `setAll` is an O(1) Dirac in spectral
  space. The code writes every Cartesian cell and marks the spectrum stale.
- The specification says second-derivative multipliers keep a value at the
  Nyquist index. In the code, `op_setup_diff2_*` and the spectral
  `diff2_c_* = diff_c_*(diff_c_*)` both leave the Nyquist column (and, in y,
  row) zero (`ComplexArrays.DiffPatternsZeroLines`,
  `Operators.RealDiffPatternsZeroLines`).
- The specification says `scaleDown(scaleUp(a))` reproduces `a`. In the code
  this holds only for an even number of rows; for an odd number the middle
  row is lost (`Dealiasing.OddRowsLoseMiddleRow`).
- The specification says spectral division inverts the spectral product.
  `DataArray::spec_div_element_wise` uses a different formula (finding F1).
- The specification says every sum is compensated. In the code,
  `DataArray::reduce_sum` is a plain sum, the `_quad` forms of `DataArray`
  use `__float128`, and the complex and scalar `_quad` forms use Kahan
  summation. Over reals they are all the same sum.

## Model

| member | source | states |
|---|---|---|
| Grid.CellIndexInRange | src/include/sweet/DataArray.hpp:461-479 | the row-major index of a cell inside an h x w grid lies below w*h, and both of its interleaved positions lie inside a complex buffer |
| Grid.CellIndexInjective | src/include/sweet/DataArray.hpp:461-479 | distinct cells have distinct flat positions, so a write to one cell cannot touch another |
| Grid.SpecLengthFromCartLength | src/include/sweet/DataArray.hpp:193-208 | the spectral length as the source computes it (Cartesian length / res0 * (res0/2+1) * 2) is res1 rows of res0/2+1 complex cells |
| Grid.SpecLengthIsCells | src/include/sweet/DataArray.hpp:207-215 | a spectral buffer holds exactly two doubles for each cell of a (res0/2+1) x res1 grid, so its length is even |
| Grid.CellWriteRead | src/include/sweet/DataArray.hpp:461-494 | writing a cell and reading any cell back yields the written value for the same cell and the old value for every other |
| Grid.PositionCell | src/include/sweet/DataArray.hpp:461-494 | every flat position of a w x h grid is the row-major position of its own row p/w and column p%w |
| Grid.DivModCell | src/include/sweet/DataArray.hpp:461-479 | the row-major index of (y, x) divided by w gives back y and its remainder gives back x |
| Cells.CDiv | src/include/sweet/Complex2DArrayFFT.hpp:894-933 | the quotient by a cell whose norm is zero is (0, 0) |
| Cells.CDivUndoesCMul | src/include/sweet/Complex2DArrayFFT.hpp:894-933 | dividing a product a*b by b returns a wherever |b|^2 is non-zero |
| Cells.CDivAsWrittenCounterexample | src/include/sweet/DataArray.hpp:1290-1322 | with a = 1 and b = i the as-written quotient formula gives i, while the product -i * i is 1 and the correct quotient 1 / i is -i |
| Cells.CMulCommutes | src/include/sweet/DataArray.hpp:1211-1282 | the complex product of operator() is commutative |
| Cells.ImaginarySquare | src/include/sweet/Operators2D.hpp:307-308 | a purely imaginary multiplier (0, k) squares to the real value -k^2 |
| Cells.SetCellThenRead | src/include/sweet/DataArray.hpp:527-547 | writing a complex cell and reading any cell back gives the written value for that cell and the old value elsewhere |
| Cells.FillCellsReadsBack | src/include/sweet/DataArray.hpp:570-586 | every cell of a buffer filled with z reads back z, and the buffer holds 2n doubles |
| Cells.CellwiseAt | src/include/sweet/DataArray.hpp:1211-1282 | cell c of a cell-wise combination is f of cell c of each operand, and the length is kept |
| Cells.CellwiseFromCells | src/include/sweet/DataArray.hpp:1211-1282 | a buffer whose every cell is f of the operands' cells equals the cell-wise combination (extensionality over cells) |
| Cells.CellwiseMulCommutes | src/include/sweet/DataArray.hpp:1211-1282 | applying operator x to field a gives the same spectrum as applying a to x |
| Cells.CMulDistributesOverCAdd | src/include/sweet/Operators2D.hpp:50-55 | (x + y) * a == x*a + y*a for complex cells |
| Cells.CMulDistributesOverCSub | src/include/sweet/Operators2D.hpp:35-42 | (x - y) * a == x*a - y*a for complex cells |
| Cells.CellwiseMulOverAddAt | src/include/sweet/Operators2D.hpp:50-55 | the distributive law of spectral operators over +, at one cell |
| Cells.CellwiseMulOverSubAt | src/include/sweet/Operators2D.hpp:35-42 | the distributive law of spectral operators over -, at one cell |
| Cells.CellwiseMulDistributesOverAdd | src/include/sweet/Operators2D.hpp:50-67 | applying the sum of two operator spectra to a field equals adding the two applications: x(a) + y(a) == (x + y)(a) |
| Cells.CellwiseMulDistributesOverSub | src/include/sweet/Operators2D.hpp:35-42 | x(a) - y(a) == (x - y)(a) |
| Cells.CellwiseDivUndoesMul | src/include/sweet/Complex2DArrayFFT.hpp:894-933 | cell-wise division by t undoes cell-wise multiplication by t when no cell of t has zero norm |
| Cells.SameCellsSameBuffer | src/include/sweet/DataArray.hpp:1303-1316 | two even-length buffers with the same cells are equal |
| Cells.SubUndoesAdd | src/include/sweet/DataArray.hpp:1460-1495 | subtracting a buffer undoes adding it |
| Cells.AddScalarInverse | src/include/sweet/ScalarDataArray.hpp:559-570 | adding -v undoes adding v |
| Cells.FillThenSubtract | src/include/sweet/ScalarDataArray.hpp:467-472 | a buffer set to v, then shifted by -v, is all zeros |
| Cells.QuotUndoesMul | src/include/sweet/ScalarDataArray.hpp:792-803 | element-wise division by a buffer without zeros undoes multiplication by it |
| Cells.ValueMinusIsShiftedNegation | src/include/sweet/ScalarDataArray.hpp:704-715 | v - a equals the negation of a shifted by v |
| Cells.NegateInvolutive | src/include/sweet/ScalarDataArray.hpp:741-749 | negating twice restores the buffer |
| Cells.ScaleInverse | src/include/sweet/ScalarDataArray.hpp:811-840 | scaling by v then by 1/v restores the buffer (v non-zero) |
| Cells.AddAtFirstInverse | src/include/sweet/DataArray.hpp:1504-1535 | adding an amount at element 0 and then subtracting it there restores the spectrum |
| Reductions.Abs | src/include/sweet/ScalarDataArray.hpp:237-248 | the absolute value is non-negative and is x or -x |
| Reductions.MaxFromIsMaximum | src/include/sweet/ScalarDataArray.hpp:304-314 | the running maximum is at least the sentinel and every element, and is the sentinel or one of the elements |
| Reductions.MinFromIsMinimum | src/include/sweet/ScalarDataArray.hpp:320-330 | the running minimum is at most the sentinel and every element, and is the sentinel or one of the elements |
| Reductions.MaxAbsFromMinusOne | src/include/sweet/ScalarDataArray.hpp:237-248 | with sentinel -1 the result is -1 exactly for an empty buffer, and otherwise the largest absolute value, attained by some element |
| Reductions.SumAbsBoundsSum | src/include/sweet/ScalarDataArray.hpp:378-389 | the 1-norm is non-negative and bounds the sum from both sides |
| Reductions.SumSquaresNonNegative | src/include/sweet/ScalarDataArray.hpp:421-432 | the squared 2-norm is non-negative |
| Reductions.SumAppend | src/include/sweet/ScalarDataArray.hpp:336-346 | the sum is additive over concatenation |
| Reductions.SumUpdate | src/include/sweet/ScalarDataArray.hpp:176-182 | overwriting one element changes the sum by the difference |
| Reductions.SumOfConstant | src/include/sweet/ScalarDataArray.hpp:205-212 | a buffer set to v sums to n*v |
| Reductions.RmsFromNorm2 | src/include/sweet/ScalarDataArray.hpp:255-267 | rms^2 * n == norm2^2, and both are non-negative |
| Buffers.FillCellsInto | src/include/sweet/DataArray.hpp:570-586 | the setAllSpec loop leaves every complex cell equal to (re, im) |
| Buffers.AddInPlace | src/include/sweet/DataArray.hpp:1544-1570 | the += loop leaves a == old a + old b element-wise, also when a and b are one buffer |
| Buffers.SubInPlace | src/include/sweet/DataArray.hpp:1578-1608 | the -= loop leaves a == old a - old b element-wise, also when a and b are one buffer |
| Buffers.ScaleBuffer | src/include/sweet/DataArray.hpp:670-682 | the post-scaling loop of the backward transform multiplies every element by v |
| Buffers.AddInto | src/include/sweet/DataArray.hpp:1460-1495 | the operator+ loop writes s + t element-wise |
| Buffers.SubInto | src/include/sweet/DataArray.hpp:1615-1652 | the operator- loop writes s - t element-wise |
| Buffers.MulInto | src/include/sweet/DataArray.hpp:1722-1772 | the operator* loop writes s * t element-wise |
| Buffers.QuotInto | src/include/sweet/DataArray.hpp:1824-1847 | the operator/ loop writes s / t element-wise for a divisor without zeros |
| Buffers.ScaleInto | src/include/sweet/DataArray.hpp:1780-1817 | the operator*(double) loop writes s * v element-wise |
| Buffers.AddAtFirstInPlace | src/include/sweet/DataArray.hpp:1504-1535 | element 0 grows by v, every other element stays |
| Buffers.CopyBuffer | src/include/sweet/DataArray.hpp:305-322 | the copy loop leaves dst equal to src |
| Buffers.NegateBuffer | src/include/sweet/DataArray.hpp:1697-1714 | the unary minus loop negates every element in place |
| Buffers.CellwiseInto | src/include/sweet/DataArray.hpp:1265-1279 | the two-doubles-per-step loop writes the cell-wise combination of s and t |
| FftPlans.PlanFitsItsField | src/include/sweet/DataArray.hpp:616-617 | the plan built from a field (PlanFor) has a forward output of two doubles per cell of the res0/2+1 by res1 half spectrum and a backward output of res0*res1 doubles; two resolutions give the same plan only when they are equal |
| FftPlans.ReleaseUndoesAcquire | src/include/sweet/DataArray.hpp:706-722 | a test-and-init step (AfterAcquire) followed by the destructor's release (AfterRelease) leaves the singleton as it was, null included |
| FftPlans.AcquireAfterRelease | src/include/sweet/DataArray.hpp:418-433 | a release followed by an acquire restores the singleton exactly when the release did not delete it or the new field asks for the same plan; after a deletion the plan is rebuilt from the asking field |
| FftPlans.DecrementKeepsSingleton | src/include/sweet/DataArray.hpp:438-443 | the aliasing decrement (AfterDecrement) is undone by an acquire at any count; at one reference the main release deletes the singleton while the aliasing decrement leaves it present with counter 0 |
| FftPlans.RunCountsLiveFields | src/include/sweet/DataArray.hpp:414-457 | over any sequence of constructions and destructions from no singleton, the counter equals the number of live fields, the singleton exists exactly while some field lives, and its counter is then at least 1 |
| FftPlans.PlanIsNotKeyedByResolution | src/include/sweet/DataArray.hpp:706-722 | a construction at any resolution keeps the plan first built |
| FftPlans.FftRegistry.constructor | src/include/sweet/DataArray.hpp:698-704 | both singleton pointers start null |
| FftPlans.FftRegistry.TestAndInit | src/include/sweet/DataArray.hpp:706-722 | the main slot becomes AfterAcquire of the old slot with this field's plan |
| FftPlans.FftRegistry.AliasingTestAndInit | src/include/sweet/DataArray.hpp:732-748 | the aliasing slot becomes AfterAcquire of the old slot with this field's plan |
| FftPlans.FftRegistry.Retain | src/include/sweet/DataArray.hpp:325-326 | the copy and move constructors raise the counter of the existing main singleton and keep its plan |
| FftPlans.FftRegistry.ReleaseAsWritten | src/include/sweet/DataArray.hpp:414-457 | the destructor as written releases the main singleton and crashes exactly when an aliasing-scaled field finds the aliasing pointer null, that is when it was the last field or the aliasing singleton never existed |
| FftPlans.FftRegistry.Release | src/include/sweet/DataArray.hpp:414-457 | the destructor with the aliasing decrement done first never crashes and leaves the same counts otherwise |
| FftPlans.LastAliasedFieldCrashes | src/include/sweet/DataArray.hpp:414-457 | destroying the last field, an aliasing-scaled one, crashes the as-written order and not the corrected one |
| DataArrays.CopyOfAliasedFieldDropsAliasingReference | src/include/sweet/DataArray.hpp:266-328 | copying an aliasing-scaled field and destroying the copy leaves the main counter as it was and the aliasing counter one lower, because the copy takes no aliasing reference while its destructor releases one |
| DataArrays.UpscaledOutputReturnsAliasingReference | src/include/sweet/DataArray.hpp:1329-1401 | for any field, aliasing_scaleUp followed by destroying its aliasing-scaled output leaves the main singleton as it was and the aliasing counter where it started, with the aliasing singleton present |
| DataArrays.DownscaledOutputKeepsAliasingReference | src/include/sweet/DataArray.hpp:1403-1413 | for any field, aliasing_scaleDown followed by destroying its output leaves the main singleton as it was and the aliasing counter one higher |
| DataArrays.DataArray.RequestBuffersWithResolution | src/include/sweet/DataArray.hpp:180-226 | an unchanged resolution changes nothing; otherwise fresh buffers of res0*res1 and res1*(res0/2+1)*2 doubles are allocated, and both flags are false |
| DataArrays.DataArray.constructor | src/include/sweet/DataArray.hpp:393-412 | a field of the resolution with both flags false, not aliasing-scaled, and a main plan reference acquired |
| DataArrays.DataArray.Copy | src/include/sweet/DataArray.hpp:266-328 | the copy has the source's resolution, flags, aliasing mark and valid buffers, and so the same values in both spaces; only the main counter rises by one |
| DataArrays.DataArray.Move | src/include/sweet/DataArray.hpp:336-385 | the new field takes the source's buffers and flags; the source is left with no buffers and both flags down; the main counter rises by one |
| DataArrays.DataArray.Destroy | src/include/sweet/DataArray.hpp:414-457 | both buffers are freed, the main singleton is released, and the aliasing counter drops for an aliasing-scaled field while the singleton exists |
| DataArrays.DataArray.Set | src/include/sweet/DataArray.hpp:461-479 | Cartesian cell (j, i) becomes v and every other value stays; the Cartesian side is valid and the spectral side stale |
| DataArrays.DataArray.Get | src/include/sweet/DataArray.hpp:482-494 | the stored Cartesian value of cell (j, i) |
| DataArrays.DataArray.GetSpecRe | src/include/sweet/DataArray.hpp:498-509 | the real part of spectral cell (j, i) |
| DataArrays.DataArray.GetSpecIm | src/include/sweet/DataArray.hpp:512-523 | the imaginary part of spectral cell (j, i) |
| DataArrays.DataArray.SetSpec | src/include/sweet/DataArray.hpp:527-547 | spectral cell (j, i) becomes (re, im) and every other cell stays; the spectral side is valid and the Cartesian side stale |
| DataArrays.DataArray.SetAll | src/include/sweet/DataArray.hpp:552-564 | every Cartesian value becomes v; Cartesian valid, spectral stale |
| DataArrays.DataArray.SetAllSpec | src/include/sweet/DataArray.hpp:570-586 | every spectral cell becomes (re, im); spectral valid, Cartesian stale |
| DataArrays.DataArray.SetupKernel | src/include/sweet/DataArray.hpp:1001-1111 | the Cartesian buffer is the zeroed grid with the x-mirrored, scaled stencil placed in four periodic blocks; the spectrum is its forward transform; both sides are valid |
| DataArrays.DataArray.PlaceBlockLoop | src/include/sweet/DataArray.hpp:1037-1106 | one quadrant loop of setup_kernel leaves the grid equal to the block placed over the old grid |
| DataArrays.MirrorKernel | src/include/sweet/DataArray.hpp:1019-1023 | entry (j, i) of the local array is k[j][S-1-i] * scale |
| DataArrays.DataArray.ScaleUp | src/include/sweet/DataArray.hpp:1329-1401 | a new aliasing-scaled, spectral-valid field of the requested resolution holding the zero-padded, rescaled spectrum; main and aliasing plan references acquired |
| DataArrays.DataArray.ScaleUpDefault | src/include/sweet/DataArray.hpp:1329-1350 | the default resolution is 3/2 of each axis rounded down; the fatal exit (null) happens exactly when one of them is odd and then nothing changes |
| DataArrays.DataArray.ScaleDown | src/include/sweet/DataArray.hpp:1403-1451 | this field becomes aliasing-scaled and spectral-valid; the new field, not aliasing-scaled and spectral-valid, holds the low modes of this field's spectral buffer copied back and rescaled; both plan references are acquired; planMismatch holds exactly when a Cartesian-valid field meets an aliasing plan of another resolution, and otherwise the spectrum is the field's own |
| DataArrays.DataArray.RequestSpectrumOrMismatch | src/include/sweet/DataArray.hpp:753-774 | the request run with whatever plan the singleton holds: planMismatch holds exactly when the spectrum was stale and the plan was built for another resolution; otherwise the spectral buffer holds the field's spectrum |
| DataArrays.DataArray.ReceiveDownscaled | src/include/sweet/DataArray.hpp:1424-1448 | the output of aliasing_scaleDown receives the low modes of the source spectrum over its old contents and becomes spectral-valid |
| DataArrays.DataArray.RequestDataInSpectralSpace | src/include/sweet/DataArray.hpp:753-774 | afterwards the spectral buffer holds the field's spectrum, the Cartesian side is untouched, and the grid values are unchanged |
| DataArrays.DataArray.RequestDataInCartesianSpace | src/include/sweet/DataArray.hpp:778-798 | afterwards the Cartesian buffer holds the field's grid values; a backward transform marks the spectrum stale |
| DataArrays.DataArray.RequestSpectralPair | src/include/sweet/DataArray.hpp:1262-1263 | both operands of a spectral operator hold their spectra |
| DataArrays.DataArray.ReturnOneIfPositive | src/include/sweet/DataArray.hpp:802-815 | a temporary Cartesian field with 1 where the stored value is positive and 0 elsewhere |
| DataArrays.DataArray.ReturnValueIfPositive | src/include/sweet/DataArray.hpp:820-833 | a temporary Cartesian field with the value where positive and 0 elsewhere |
| DataArrays.DataArray.ReturnOneIfNegative | src/include/sweet/DataArray.hpp:837-850 | a temporary Cartesian field with 1 where the value is negative and 0 elsewhere |
| DataArrays.DataArray.ReturnValueIfNegative | src/include/sweet/DataArray.hpp:854-867 | a temporary Cartesian field with the value where negative and 0 elsewhere |
| DataArrays.ValueMasksAreOneMasksTimesValues | src/include/sweet/DataArray.hpp:802-867 | the value masks are the one masks times the values |
| DataArrays.PositiveAndNegativePartsAddUp | src/include/sweet/DataArray.hpp:820-867 | the positive and the negative parts add up to the field |
| DataArrays.DataArray.ReduceMaxAbs | src/include/sweet/DataArray.hpp:891-901 | the running maximum of absolute grid values from -1, after the Cartesian request |
| DataArrays.DataArray.ReduceMax | src/include/sweet/DataArray.hpp:907-917 | the running maximum of the grid values from -DBL_MAX |
| DataArrays.DataArray.ReduceMin | src/include/sweet/DataArray.hpp:923-933 | the running minimum of the grid values from DBL_MAX |
| DataArrays.DataArray.ReduceSum | src/include/sweet/DataArray.hpp:939-949 | the sum of the grid values |
| DataArrays.DataArray.ReduceSumQuad | src/include/sweet/DataArray.hpp:955-965 | the same sum as reduce_sum |
| DataArrays.DataArray.ReduceSumAbs | src/include/sweet/DataArray.hpp:986-996 | the sum of the absolute grid values |
| DataArrays.DataArray.ReduceSumAbsQuad | src/include/sweet/DataArray.hpp:970-980 | the same sum as reduce_sumAbs |
| DataArrays.DataArray.Assign | src/include/sweet/DataArray.hpp:1132-1204 | the flags and aliasing mark are the source's, each valid buffer holds the source's values, and a temporary source's buffers are swapped in rather than copied |
| DataArrays.DataArray.AssignCartesian | src/include/sweet/DataArray.hpp:1140-1170 | the Cartesian half of operator=: copy, or swap with a temporary source |
| DataArrays.DataArray.AssignSpectral | src/include/sweet/DataArray.hpp:1172-1200 | the spectral half of operator=: copy, or swap with a temporary source |
| DataArrays.DataArray.AddField | src/include/sweet/DataArray.hpp:1460-1495 | a temporary spectral field holding the sum of both spectra |
| DataArrays.DataArray.SubField | src/include/sweet/DataArray.hpp:1615-1652 | a temporary spectral field holding the difference of both spectra |
| DataArrays.DataArray.AddAssign | src/include/sweet/DataArray.hpp:1544-1570 | this field's spectral buffer, in place, becomes the sum of the two spectra; spectral valid, Cartesian stale |
| DataArrays.DataArray.SubAssign | src/include/sweet/DataArray.hpp:1578-1608 | this field's spectral buffer, in place, becomes the difference of the two spectra |
| DataArrays.DataArray.AddScalar | src/include/sweet/DataArray.hpp:1504-1535 | a spectral copy with v*res0*res1 added at element 0 only, the mean mode |
| DataArrays.DataArray.SubScalarAsWritten | src/include/sweet/DataArray.hpp:1660-1689 | the same amount subtracted, but the result has neither flag set, so neither space can be requested from it |
| DataArrays.DataArray.SubScalar | src/include/sweet/DataArray.hpp:1660-1689 | the corrected operator-(double): a spectral-valid result, inverse to AddScalar |
| DataArrays.DataArray.NegateAsWritten | src/include/sweet/DataArray.hpp:1697-1714 | the spectral buffer is negated in place with no request and no change of flags |
| DataArrays.UnaryMinusKeepsGridValue | src/include/sweet/DataArray.hpp:1697-1714 | on a Cartesian-valid field of ones, the grid value read after the as-written negation is still 1 |
| DataArrays.DataArray.NegateSpectrum | src/include/sweet/DataArray.hpp:1697-1714 | the corrected unary minus: the field's spectrum negated, spectral valid, Cartesian stale |
| DataArrays.DataArray.ApplyOperator | src/include/sweet/DataArray.hpp:1211-1282 | a temporary spectral field holding the cell-wise complex product of the two spectra |
| DataArrays.DataArray.SpecDivAsWritten | src/include/sweet/DataArray.hpp:1290-1322 | the cell-wise quotient by the as-written formula (ar br - ai bi, ai br - ar bi) / (br^2 - bi^2) |
| DataArrays.DataArray.SpecDiv | src/include/sweet/DataArray.hpp:1290-1322 | the corrected cell-wise quotient with the zero-denominator rule, which CellwiseDivUndoesMul shows inverts ApplyOperator |
| DataArrays.DataArray.MulField | src/include/sweet/DataArray.hpp:1722-1772 | a temporary Cartesian field holding the point-wise product of the grid values |
| DataArrays.DataArray.DivField | src/include/sweet/DataArray.hpp:1824-1847 | a temporary Cartesian field holding the point-wise quotient |
| DataArrays.DataArray.MulScalar | src/include/sweet/DataArray.hpp:1780-1817 | the spectrum scaled by v when it is valid, otherwise the grid values scaled by v |
| DataArrays.ScalarTimes | src/include/sweet/DataArray.hpp:1913-1919 | v * a is a * v |
| DataArrays.MemcpyInto | src/include/sweet/DataArray.hpp:1377-1389 | memcpy overwrites len values at the destination offset and nothing else |
| DataArrays.CopyQuadrantsInto | src/include/sweet/DataArray.hpp:1374-1389 | the row loop of the resampling leaves the output equal to the resampled buffer |
| DataArrays.CopyRowPair | src/include/sweet/DataArray.hpp:1376-1389 | one iteration copies the lower and the upper row of pair j |
| DataArrays.DownInto | src/include/sweet/DataArray.hpp:1424-1445 | the body of aliasing_scaleDown after the request leaves the output equal to the down-scaled spectrum |
| Dealiasing.CellRowCol | src/include/sweet/DataArray.hpp:1374-1389 | row and column of a flat cell locate it |
| Dealiasing.WindowIndex | src/include/sweet/DataArray.hpp:1377-1389 | a position lies in the memcpy window of row R exactly when its cell is in row R and a column below the copied width |
| Dealiasing.ResampledStart | src/include/sweet/DataArray.hpp:1370-1374 | before the row loop nothing has been copied |
| Dealiasing.StepBounds | src/include/sweet/DataArray.hpp:1374-1389 | both memcpy windows of every iteration lie inside both buffers |
| Dealiasing.ResampledStep | src/include/sweet/DataArray.hpp:1374-1389 | iteration n of the row loop takes the buffer after n iterations to the buffer after n + 1 |
| Dealiasing.ScaleFactor | src/include/sweet/DataArray.hpp:1391 | the rescaling factor new points / old points is positive |
| Dealiasing.ScaleFactorsCancel | src/include/sweet/DataArray.hpp:1391-1441 | the up factor and the down factor multiply to one |
| Dealiasing.DefaultAliasingResolution | src/include/sweet/DataArray.hpp:1337-1339 | the default resolution is at least the old one |
| Dealiasing.DefaultResolutionEven | src/include/sweet/DataArray.hpp:1337-1347 | the default resolution is even, so no fatal exit happens, exactly when r mod 4 is 0 or 3 |
| Dealiasing.UpSpectrum | src/include/sweet/DataArray.hpp:1370-1396 | the padded spectrum has the spectral length of the new resolution |
| Dealiasing.DownSpectrum | src/include/sweet/DataArray.hpp:1424-1446 | the truncated spectrum has the spectral length of the new resolution |
| Dealiasing.UpIndexCell | src/include/sweet/DataArray.hpp:1374-1389 | where a spectral position goes when padded: the same column and part, the same row in the lower half, and the row shifted by H - h in the upper half |
| Dealiasing.UpAt | src/include/sweet/DataArray.hpp:1374-1389 | for an even number of rows the copy up puts every position at its padded place |
| Dealiasing.DownAt | src/include/sweet/DataArray.hpp:1424-1439 | for an even number of rows the copy down takes every position back from its padded place |
| Dealiasing.CopiesRoundTrip | src/include/sweet/DataArray.hpp:1374-1439 | copying up, scaling and copying back down gives the original spectrum scaled |
| Dealiasing.AliasingRoundTrip | src/include/sweet/DataArray.hpp:1329-1451 | for an even number of rows, scaleDown(scaleUp(s)) returns s exactly, whatever the output buffer held before |
| Dealiasing.OddRowsLoseMiddleRow | src/include/sweet/DataArray.hpp:1374-1389 | for an odd number of rows, two spectra that differ only in the middle row scale up to the same spectrum |
| Dealiasing.CellRowColOf | src/include/sweet/DataArray.hpp:1374-1389 | the row and column of the cell at (J, I) read back as J and I |
| Dealiasing.Memcpy | src/include/sweet/DataArray.hpp:1377-1388 | a memcpy keeps the destination length |
| Dealiasing.Resampled | src/include/sweet/DataArray.hpp:1374-1389 | the buffer after any number of row-loop iterations keeps its length |
| Dealiasing.RowPairCopied | src/include/sweet/DataArray.hpp:1376-1388 | one iteration of the row loop keeps the buffer length |
| Dealiasing.StepLowerAt | src/include/sweet/DataArray.hpp:1376-1381 | after iteration n a position in the lower window of row n holds the source position of row n, same column |
| Dealiasing.StepUpperAt | src/include/sweet/DataArray.hpp:1383-1388 | after iteration n a position in the upper window holds the source position of the matching upper row |
| Dealiasing.StepOutsideAt | src/include/sweet/DataArray.hpp:1374-1389 | a position outside both windows of iteration n keeps its value |
| Dealiasing.ScaledAt | src/include/sweet/DataArray.hpp:1391-1395 | the scaling loop keeps the length and multiplies each element by the factor |
| Dealiasing.ScaleCancel | src/include/sweet/DataArray.hpp:1391-1445 | scaling by f then by g with f * g == 1 restores the buffer |
| Dealiasing.CopiesRoundTripAt | src/include/sweet/DataArray.hpp:1374-1439 | CopiesRoundTrip at one position, for the windows the down copy uses |
| Kernels.Mirror | src/include/sweet/DataArray.hpp:1019-1023 | the mirrored stencil is S x S |
| Kernels.KernelBuffer | src/include/sweet/DataArray.hpp:1033-1106 | the placed kernel buffer has res0*res1 values |
| Kernels.PlaceStart | src/include/sweet/DataArray.hpp:1037-1040 | nothing precedes the first entry of a block |
| Kernels.PlaceNextRow | src/include/sweet/DataArray.hpp:1037-1040 | finishing stencil row ky of a block is starting row ky + 1 |
| Kernels.PlaceStepAt | src/include/sweet/DataArray.hpp:1037-1052 | visiting stencil entry (ky, kx) changes exactly the position whose source it is |
| Kernels.PlaceStepInGrid | src/include/sweet/DataArray.hpp:1037-1052 | an entry whose target lies in the grid is written there |
| Kernels.PlaceStepOutside | src/include/sweet/DataArray.hpp:1044-1047 | an entry whose target lies outside the grid changes nothing |
| Kernels.BlockCell | src/include/sweet/DataArray.hpp:1037-1106 | after a whole block a cell holds its source entry if the block covers it, else its old value |
| Kernels.PlaceUpTo | src/include/sweet/DataArray.hpp:1037-1052 | placing a block up to any entry keeps the buffer length |
| Kernels.PlaceBlock | src/include/sweet/DataArray.hpp:1037-1106 | placing a whole block keeps the buffer length |
| Kernels.WrapCover | src/include/sweet/DataArray.hpp:1031-1106 | along an axis of length n >= S, grid index y is reached exactly from the first R+1 and the last R positions, at stencil index (y + R) mod n |
| Kernels.KernelIsPeriodicPlacement | src/include/sweet/DataArray.hpp:1001-1111 | on a grid at least as large as the stencil the four blocks do not overlap, and cell (y, x) holds the mirrored stencil entry at ((y + R) mod res1, (x + R) mod res0), or 0 |
| SpectralPatterns.WriteGridCell | src/include/sweet/Complex2DArrayFFT.hpp:429-433 | a cell write keeps the buffer length |
| SpectralPatterns.WriteThenRead | src/include/sweet/Complex2DArrayFFT.hpp:429-471 | writing a grid cell changes that cell and no other |
| SpectralPatterns.IterationWrites | src/include/sweet/Complex2DArrayFFT.hpp:627-653 | the writes of one iteration keep the buffer length |
| SpectralPatterns.TargetSources | src/include/sweet/Complex2DArrayFFT.hpp:627-653 | the rows and columns an iteration writes lie in the grid and read back as its loop indices |
| SpectralPatterns.PartialAdvance | src/include/sweet/Complex2DArrayFFT.hpp:627-653 | advancing the loop from (j, i) to (j, i + 1) changes exactly the cells whose row and column read back as j and i |
| SpectralPatterns.TargetOfSource | src/include/sweet/Complex2DArrayFFT.hpp:627-653 | a cell whose row reads back as j and column as i is one of iteration (j, i)'s targets |
| SpectralPatterns.IterationWritesAt | src/include/sweet/Complex2DArrayFFT.hpp:627-653 | what iteration (j, i) leaves in each cell: the direct, row-mirrored, column-mirrored or doubly mirrored value, or the old cell |
| SpectralPatterns.FillStep | src/include/sweet/Complex2DArrayFFT.hpp:627-653 | one iteration of the inner loop carries the loop state from (j, i) to (j, i + 1) |
| SpectralPatterns.FillStepCell | src/include/sweet/Complex2DArrayFFT.hpp:627-653 | FillStep at one cell |
| SpectralPatterns.RowDone | src/include/sweet/Complex2DArrayFFT.hpp:627-629 | the state after row j is the state before row j + 1 |
| SpectralPatterns.LoopsDone | src/include/sweet/Complex2DArrayFFT.hpp:627-653 | after the outer loop every cell holds its final pattern value |
| SpectralPatterns.WriteCellInto | src/include/sweet/Complex2DArrayFFT.hpp:429-433 | set(y, x, z) overwrites exactly cell (y, x) |
| SpectralPatterns.IterationInto | src/include/sweet/Complex2DArrayFFT.hpp:631-653 | the two or four set calls of one iteration |
| SpectralPatterns.FillPatternInto | src/include/sweet/Complex2DArrayFFT.hpp:600-850 | the nested loops over a zeroed grid leave every cell holding the pattern value |
| SpectralPatterns.GridCellsDetermine | src/include/sweet/Complex2DArrayFFT.hpp:463-471 | two buffers that agree on every cell are equal |
| SpectralPatterns.SquareCells | src/include/sweet/Operators2D.hpp:307-308 | every cell of the cell-wise square is the square of the cell |
| SpectralPatterns.SquarePattern | src/include/sweet/Operators2D.hpp:307-308 | a pattern whose multiplier is the square of another's is the cell-wise square of that pattern |
| ComplexArrays.ComplexPlans.constructor | src/include/sweet/Complex2DArrayFFT.hpp:68-89 | no references and no plans |
| ComplexArrays.ComplexPlans.Setup | src/include/sweet/Complex2DArrayFFT.hpp:91-189 | one more reference; the plans are built from this resolution exactly when the counter becomes 1 |
| ComplexArrays.ComplexPlans.Shutdown | src/include/sweet/Complex2DArrayFFT.hpp:191-212 | one reference fewer; the plans are destroyed exactly when the counter reaches 0 |
| ComplexArrays.Complex2DArray.Get | src/include/sweet/Complex2DArrayFFT.hpp:453-471 | the complex value at positions (y res0 + x) * 2 and the one after |
| ComplexArrays.Complex2DArray.Empty | src/include/sweet/Complex2DArrayFFT.hpp:216-226 | no buffer, not initialised, not counted |
| ComplexArrays.Complex2DArray.constructor | src/include/sweet/Complex2DArrayFFT.hpp:231-251 | a buffer of 2*res0*res1 doubles and one plan reference |
| ComplexArrays.Complex2DArray.Setup | src/include/sweet/Complex2DArrayFFT.hpp:293-306 | the same as the resolution constructor on an existing array |
| ComplexArrays.Complex2DArray.Copy | src/include/sweet/Complex2DArrayFFT.hpp:310-330 | a new buffer with the source's values and resolution, and one plan reference |
| ComplexArrays.Complex2DArray.Destroy | src/include/sweet/Complex2DArrayFFT.hpp:343-348 | the buffer is freed; an initialised array gives back its plan reference, any other leaves the counter unchanged |
| ComplexArrays.Complex2DArray.Assign | src/include/sweet/Complex2DArrayFFT.hpp:353-362 | this buffer holds the source's values |
| ComplexArrays.Complex2DArray.ToSpec | src/include/sweet/Complex2DArrayFFT.hpp:366-388 | a new array holding the forward transform |
| ComplexArrays.Complex2DArray.ToCart | src/include/sweet/Complex2DArrayFFT.hpp:391-426 | a new array holding the backward transform scaled by 1/(res0 res1) |
| ComplexArrays.Complex2DArray.Set | src/include/sweet/Complex2DArrayFFT.hpp:429-440 | cell (y, x) becomes (re, im), Get reads it back, and every other cell keeps its value |
| ComplexArrays.Complex2DArray.SetRe | src/include/sweet/Complex2DArrayFFT.hpp:443-446 | the real part becomes re, the imaginary part and every other value stay |
| ComplexArrays.Complex2DArray.SetIm | src/include/sweet/Complex2DArrayFFT.hpp:448-451 | the imaginary part becomes im, everything else stays |
| ComplexArrays.Complex2DArray.SetAll | src/include/sweet/Complex2DArrayFFT.hpp:473-483 | every cell reads back (re, im) |
| ComplexArrays.Complex2DArray.SetAllValue | src/include/sweet/Complex2DArrayFFT.hpp:485-500 | every cell reads back z |
| ComplexArrays.Complex2DArray.SetAllRe | src/include/sweet/Complex2DArrayFFT.hpp:502-511 | every real part becomes re, the imaginary parts stay |
| ComplexArrays.Complex2DArray.SetAllIm | src/include/sweet/Complex2DArrayFFT.hpp:513-522 | every imaginary part becomes im, the real parts stay |
| ComplexArrays.Complex2DArray.OpSetupDiffX | src/include/sweet/Complex2DArrayFFT.hpp:600-657 | spectral mode: every cell holds the x-derivative pattern value; finite-difference mode: the forward transform of the central-difference stencil; the plan counter ends as it started |
| ComplexArrays.Complex2DArray.OpSetupDiff2X | src/include/sweet/Complex2DArrayFFT.hpp:662-721 | the same with the multipliers -(i 2 pi / L0)^2 or the second-difference stencil |
| ComplexArrays.Complex2DArray.OpSetupDiffY | src/include/sweet/Complex2DArrayFFT.hpp:726-785 | the same in y with i j 2 pi / L1 |
| ComplexArrays.Complex2DArray.OpSetupDiff2Y | src/include/sweet/Complex2DArrayFFT.hpp:789-850 | the same in y with -(j 2 pi / L1)^2 |
| ComplexArrays.Complex2DArray.TransformInPlace | src/include/sweet/Complex2DArrayFFT.hpp:617 | this = this.toSpec() leaves the forward transform in the buffer and the plan counter as it was |
| ComplexArrays.Complex2DArray.SpecDivElementWise | src/include/sweet/Complex2DArrayFFT.hpp:894-933 | fatal exactly when some cell's abs(br^2 + bi^2) is below the threshold (never for a threshold <= 0); otherwise the cell-wise quotient with (0, 0) at zero denominators |
| ComplexArrays.Complex2DArray.ApplyOperator | src/include/sweet/Complex2DArrayFFT.hpp:1011-1032 | the cell-wise complex product |
| ComplexArrays.Complex2DArray.MulScalar | src/include/sweet/Complex2DArrayFFT.hpp:1039-1060 | every cell times v |
| ComplexArrays.Complex2DArray.AddArray | src/include/sweet/Complex2DArrayFFT.hpp:1068-1084 | the element-wise sum |
| ComplexArrays.Complex2DArray.AddAssign | src/include/sweet/Complex2DArrayFFT.hpp:1093-1107 | b added element-wise into this buffer |
| ComplexArrays.Complex2DArray.SubArray | src/include/sweet/Complex2DArrayFFT.hpp:1115-1131 | the element-wise difference |
| ComplexArrays.Complex2DArray.AddScalarSpec | src/include/sweet/Complex2DArrayFFT.hpp:1139-1161 | a copy with v*res0*res1 added at cell 0 only |
| ComplexArrays.Complex2DArray.SubScalarSpec | src/include/sweet/Complex2DArrayFFT.hpp:1193-1213 | a copy with the same amount subtracted at cell 0 |
| ComplexArrays.Complex2DArray.AddScalarCart | src/include/sweet/Complex2DArrayFFT.hpp:1169-1185 | v added to every cell |
| ComplexArrays.Complex2DArray.SubScalarCart | src/include/sweet/Complex2DArrayFFT.hpp:1221-1237 | v subtracted from every cell |
| ComplexArrays.Complex2DArray.MulArray | src/include/sweet/Complex2DArrayFFT.hpp:1245-1265 | the cell-wise complex product, sized by the operand |
| ComplexArrays.Complex2DArray.ReduceSumAbsAsWritten | src/include/sweet/Complex2DArrayFFT.hpp:856-866 | the as-written loop reads past the buffer exactly when the grid has two or more cells; otherwise it returns the sum of abs(re) + abs(im) |
| ComplexArrays.Complex2DArray.ReduceSumAbs | src/include/sweet/Complex2DArrayFFT.hpp:856-866 | the corrected sum of abs(re) + abs(im) over every cell |
| ComplexArrays.Complex2DArray.ReduceRmsQuad | src/include/sweet/Complex2DArrayFFT.hpp:1272-1298 | the square root of the sum of cell norms squared divided by the number of cells |
| ComplexArrays.Complex2DArray.ReduceSumReQuad | src/include/sweet/Complex2DArrayFFT.hpp:1305-1327 | the sum of the real parts |
| ComplexArrays.Complex2DArray.ReduceNorm2Quad | src/include/sweet/Complex2DArrayFFT.hpp:1334-1356 | the square root of the sum of cell norms squared |
| ComplexArrays.FillPartInto | src/include/sweet/Complex2DArrayFFT.hpp:502-522 | every value at an even (real) or odd (imaginary) position becomes v and the other part stays |
| ComplexArrays.ExecuteInto | src/include/sweet/Complex2DArrayFFT.hpp:366-388 | a plan execution leaves the transform's output in the destination |
| ComplexArrays.DiffXPattern | src/include/sweet/Complex2DArrayFFT.hpp:627-653 | the x loops (rows j < res1/2 mirrored to res1-1-j, columns 1 <= i < res0/2 mirrored to res0-i) fit the grid: every row and column they write, direct or mirrored, lies inside it |
| ComplexArrays.DiffYPattern | src/include/sweet/Complex2DArrayFFT.hpp:753-781 | the y loops (rows 1 <= j < res1/2 mirrored to res1-j, columns i < res0/2 mirrored to res0-1-i) fit the grid |
| ComplexArrays.DiffXIsWavenumber | src/include/sweet/Complex2DArrayFFT.hpp:600-657 | for even resolutions, every cell of the x-derivative spectrum is i times the signed x wavenumber (zero at the mean and Nyquist columns) times 2 pi / L0 |
| ComplexArrays.DiffYIsWavenumber | src/include/sweet/Complex2DArrayFFT.hpp:726-785 | for even resolutions, every cell of the y-derivative spectrum is i times the signed y wavenumber times 2 pi / L1 |
| ComplexArrays.DiffPatternsZeroLines | src/include/sweet/Complex2DArrayFFT.hpp:600-850 | at every resolution the x patterns leave columns 0 and res0/2 zero, and the y patterns rows 0 and res1/2, whatever the multiplier |
| ComplexArrays.Diff2MultipliersSquare | src/include/sweet/Complex2DArrayFFT.hpp:662-721 | each second-derivative multiplier is the square of the first-derivative one |
| ComplexArrays.Diff2XIsDiffXSquared | src/include/sweet/Complex2DArrayFFT.hpp:600-721 | the spectral second derivative in x is the cell-wise square of the first |
| ComplexArrays.Diff2YIsDiffYSquared | src/include/sweet/Complex2DArrayFFT.hpp:726-850 | the same in y |
| ComplexArrays.SumReSetCell | src/include/sweet/Complex2DArrayFFT.hpp:429-433 | overwriting a cell changes the sum of real parts by the change of that cell's real part |
| ComplexArrays.SumReZeros | src/include/sweet/Complex2DArrayFFT.hpp:605 | the zeroed grid's real parts sum to zero |
| ComplexArrays.SumReWrite | src/include/sweet/Complex2DArrayFFT.hpp:429-433 | the same through grid coordinates |
| ComplexArrays.TwoWritesOnZeros | src/include/sweet/Complex2DArrayFFT.hpp:614-615 | two writes of distinct cells on the zero grid sum to the two real parts written |
| ComplexArrays.ThreeWritesOnZeros | src/include/sweet/Complex2DArrayFFT.hpp:677-681 | three writes of distinct cells on the zero grid sum to the three real parts written |
| ComplexArrays.DiffXStencilWeightsCancel | src/include/sweet/Complex2DArrayFFT.hpp:607-617 | on at least three columns the central-difference weights sum to zero |
| ComplexArrays.Diff2XStencilWeightsCancel | src/include/sweet/Complex2DArrayFFT.hpp:670-681 | on at least three columns the second-difference weights 1, -2, 1 sum to zero |
| ComplexArrays.DiffYStencilWeightsCancel | src/include/sweet/Complex2DArrayFFT.hpp:733-743 | the same in y |
| ComplexArrays.Diff2YStencilWeightsCancel | src/include/sweet/Complex2DArrayFFT.hpp:797-808 | the same in y |
| ComplexArrays.DiffXStencilTwoColumns | src/include/sweet/Complex2DArrayFFT.hpp:614-615 | with two columns the second write lands on the first cell written, and the stencil sums to 1/(2h) instead of zero |
| ComplexArrays.ZeroGridCell | src/include/sweet/Complex2DArrayFFT.hpp:605 | every cell of the zeroed grid is zero |
| ComplexArrays.ShiftCellsAt | src/include/sweet/Complex2DArrayFFT.hpp:1169-1185 | each cell of the shifted buffer is the cell plus v |
| ComplexArrays.ShiftCellsInverse | src/include/sweet/Complex2DArrayFFT.hpp:1169-1237 | subScalar_Cart undoes addScalar_Cart |
| ComplexArrays.FillThenShiftBack | src/include/sweet/Complex2DArrayFFT.hpp:473-500 | setAll(v) followed by addScalar_Cart(-v) leaves every cell zero |
| ComplexArrays.ScaleCellsInverse | src/include/sweet/Complex2DArrayFFT.hpp:1039-1060 | division by the constant field v undoes operator*(v) for v != 0 |
| ComplexArrays.AddAtFirstCellInverse | src/include/sweet/Complex2DArrayFFT.hpp:1139-1213 | subScalar_Spec undoes addScalar_Spec |
| ComplexArrays.ScalarTimesArray | src/include/sweet/Complex2DArrayFFT.hpp:1363-1385 | v * a multiplies every cell of a by v |
| ComplexArrays.DiffXStencilOneColumn | src/include/sweet/Complex2DArrayFFT.hpp:614-615 | with one column, set(0, 1, ...) lands on cell (1, 0): on a 1 x 2 grid the x stencil is a difference between the two rows |
| ComplexArrays.DiffXStencilSingleCell | src/include/sweet/Complex2DArrayFFT.hpp:614-615 | on a 1 x 1 grid the first set call falls outside the buffer (dropped in the model) and only the weight 1/(2h) at (0, 0) is written |
| ComplexArrays.DiffXStencilInto | src/include/sweet/Complex2DArrayFFT.hpp:614-615 | the two set calls leave the central-difference stencil in x |
| ComplexArrays.Diff2XStencilInto | src/include/sweet/Complex2DArrayFFT.hpp:677-681 | the three set calls leave the second-difference stencil in x |
| ComplexArrays.DiffYStencilInto | src/include/sweet/Complex2DArrayFFT.hpp:740-743 | the central-difference stencil in y |
| ComplexArrays.Diff2YStencilInto | src/include/sweet/Complex2DArrayFFT.hpp:804-808 | the second-difference stencil in y |
| ComplexArrays.AddAtFirstCellInPlace | src/include/sweet/Complex2DArrayFFT.hpp:1155-1158 | cell 0 grows by z, everything else stays |
| ComplexArrays.CellwiseConstInto | src/include/sweet/Complex2DArrayFFT.hpp:1039-1060 | cell c of the destination is f(cell c, v) |
| ComplexArrays.ShiftCellsInto | src/include/sweet/Complex2DArrayFFT.hpp:1169-1237 | the addScalar_Cart loop |
| ComplexArrays.ScaleCellsInto | src/include/sweet/Complex2DArrayFFT.hpp:1039-1060 | the operator*(complex) loop |
| ComplexArrays.DivCellsInto | src/include/sweet/Complex2DArrayFFT.hpp:894-933 | the division loop stops as fatal exactly when some denominator is below the threshold, otherwise it writes the cell-wise quotient |
| ComplexArrays.SumAbsStrided | src/include/sweet/Complex2DArrayFFT.hpp:856-866 | the as-written strided loop reads out of bounds exactly when the buffer holds four or more doubles |
| ComplexArrays.SumAbsCells | src/include/sweet/Complex2DArrayFFT.hpp:856-866 | the intended loop sums abs(re) + abs(im) |
| ComplexArrays.KahanSumSquares | src/include/sweet/Complex2DArrayFFT.hpp:1272-1298 | the Kahan loop returns the exact sum of re^2 + im^2 |
| ComplexArrays.KahanSumRe | src/include/sweet/Complex2DArrayFFT.hpp:1305-1327 | the Kahan loop returns the exact sum of the real parts |
| ScalarArrays.ScalarDataArray.Elements | src/include/sweet/ScalarDataArray.hpp:196-201 | the counted elements: as many as number_of_elements, the buffer's prefix |
| ScalarArrays.ScalarDataArray.Empty | src/include/sweet/ScalarDataArray.hpp:63-66 | no elements and no buffer |
| ScalarArrays.ScalarDataArray.constructor | src/include/sweet/ScalarDataArray.hpp:87-98 | n elements in a new buffer of n doubles, no buffer at all for n == 0 |
| ScalarArrays.ScalarDataArray.FromConfig | src/include/sweet/ScalarDataArray.hpp:109-116 | a buffer of the configuration's physical element count |
| ScalarArrays.ScalarDataArray.Copy | src/include/sweet/ScalarDataArray.hpp:146-156 | a new buffer of the source's count holding its elements |
| ScalarArrays.ScalarDataArray.Setup | src/include/sweet/ScalarDataArray.hpp:128-138 | afterwards n elements are held in a fresh buffer of n doubles |
| ScalarArrays.ScalarDataArray.FreeBuffer | src/include/sweet/ScalarDataArray.hpp:159-165 | a non-empty array loses its buffer; the count becomes zero either way |
| ScalarArrays.ScalarDataArray.Destroy | src/include/sweet/ScalarDataArray.hpp:169-172 | no elements remain |
| ScalarArrays.ScalarDataArray.PhysicalGet | src/include/sweet/ScalarDataArray.hpp:196-201 | element i |
| ScalarArrays.ScalarDataArray.Set | src/include/sweet/ScalarDataArray.hpp:176-182 | element i becomes v and physical_get(i) reads v back; every other element stays |
| ScalarArrays.ScalarDataArray.PhysicalSetAll | src/include/sweet/ScalarDataArray.hpp:205-212 | every element becomes v |
| ScalarArrays.ScalarDataArray.AssignValue | src/include/sweet/ScalarDataArray.hpp:467-472 | every element becomes v |
| ScalarArrays.ScalarDataArray.AssignInt | src/include/sweet/ScalarDataArray.hpp:479-484 | every element becomes the integer as a double |
| ScalarArrays.ScalarDataArray.UpdateLambdaArrayIndices | src/include/sweet/ScalarDataArray.hpp:185-192 | element idx becomes f(idx, element idx) for every counted idx; the rest of the buffer is untouched |
| ScalarArrays.ScalarDataArray.Assign | src/include/sweet/ScalarDataArray.hpp:491-502 | the source's count and elements, copied into the existing buffer |
| ScalarArrays.ScalarDataArray.AddArray | src/include/sweet/ScalarDataArray.hpp:509-520 | out[i] = a[i] + b[i] |
| ScalarArrays.ScalarDataArray.SubArray | src/include/sweet/ScalarDataArray.hpp:668-679 | out[i] = a[i] - b[i] |
| ScalarArrays.ScalarDataArray.MulArray | src/include/sweet/ScalarDataArray.hpp:757-768 | out[i] = a[i] * b[i] |
| ScalarArrays.ScalarDataArray.DivArray | src/include/sweet/ScalarDataArray.hpp:792-803 | out[i] = a[i] / b[i] for a divisor without zeros |
| ScalarArrays.ScalarDataArray.AddAssign | src/include/sweet/ScalarDataArray.hpp:578-588 | this array becomes a + b element-wise; b may be this array |
| ScalarArrays.ScalarDataArray.SubAssign | src/include/sweet/ScalarDataArray.hpp:652-661 | this array becomes a - b element-wise |
| ScalarArrays.ScalarDataArray.MulAssign | src/include/sweet/ScalarDataArray.hpp:775-784 | this array becomes a * b element-wise |
| ScalarArrays.ScalarDataArray.AddValue | src/include/sweet/ScalarDataArray.hpp:559-570 | a[i] + v |
| ScalarArrays.ScalarDataArray.SubValue | src/include/sweet/ScalarDataArray.hpp:687-696 | a[i] - v |
| ScalarArrays.ScalarDataArray.MulValue | src/include/sweet/ScalarDataArray.hpp:811-822 | a[i] * v |
| ScalarArrays.ScalarDataArray.DivValue | src/include/sweet/ScalarDataArray.hpp:829-840 | a[i] / v for v != 0 |
| ScalarArrays.ScalarDataArray.ValueMinusThis | src/include/sweet/ScalarDataArray.hpp:704-715 | v - a[i] |
| ScalarArrays.ScalarDataArray.ValueDivThis | src/include/sweet/ScalarDataArray.hpp:722-733 | v / a[i] for an array without zeros |
| ScalarArrays.ScalarDataArray.Negated | src/include/sweet/ScalarDataArray.hpp:741-749 | -a[i] |
| ScalarArrays.ScalarDataArray.Sqrt | src/include/sweet/ScalarDataArray.hpp:526-535 | sqrt(a[i]) |
| ScalarArrays.ScalarDataArray.InvSqrt | src/include/sweet/ScalarDataArray.hpp:542-551 | 1 / sqrt(a[i]) |
| ScalarArrays.ScalarDataArray.AddAssignValue | src/include/sweet/ScalarDataArray.hpp:596-608 | every element grows by v in place |
| ScalarArrays.ScalarDataArray.MulAssignValue | src/include/sweet/ScalarDataArray.hpp:616-627 | every element is multiplied by v in place |
| ScalarArrays.ScalarDataArray.DivAssignValue | src/include/sweet/ScalarDataArray.hpp:635-644 | every element is divided by v in place |
| ScalarArrays.ScalarDataArray.ReduceMaxAbs | src/include/sweet/ScalarDataArray.hpp:237-248 | the running maximum of absolute values from -1, which MaxAbsFromMinusOne shows is -1 exactly for no elements |
| ScalarArrays.ScalarDataArray.ReduceMax | src/include/sweet/ScalarDataArray.hpp:304-314 | the running maximum from -DBL_MAX |
| ScalarArrays.ScalarDataArray.ReduceMin | src/include/sweet/ScalarDataArray.hpp:320-330 | the running minimum from DBL_MAX |
| ScalarArrays.ScalarDataArray.ReduceSum | src/include/sweet/ScalarDataArray.hpp:336-346 | the sum of the elements |
| ScalarArrays.ScalarDataArray.ReduceSumQuad | src/include/sweet/ScalarDataArray.hpp:352-373 | the Kahan sum equals the plain sum |
| ScalarArrays.ScalarDataArray.ReduceNorm1 | src/include/sweet/ScalarDataArray.hpp:378-389 | the sum of absolute values |
| ScalarArrays.ScalarDataArray.ReduceNorm1Quad | src/include/sweet/ScalarDataArray.hpp:394-415 | the Kahan sum of absolute values equals the plain one |
| ScalarArrays.ScalarDataArray.ReduceNorm2 | src/include/sweet/ScalarDataArray.hpp:421-432 | the square root of the sum of squares |
| ScalarArrays.ScalarDataArray.ReduceNorm2Quad | src/include/sweet/ScalarDataArray.hpp:438-460 | the same with Kahan summation |
| ScalarArrays.ScalarDataArray.ReduceRms | src/include/sweet/ScalarDataArray.hpp:255-267 | the square root of the mean of the squares |
| ScalarArrays.ScalarDataArray.ReduceRmsQuad | src/include/sweet/ScalarDataArray.hpp:273-297 | the same with Kahan summation |
| ScalarArrays.ValueTimesArray | src/include/sweet/ScalarDataArray.hpp:893-899 | v * a equals a * v |
| ScalarArrays.ValueMinusArray | src/include/sweet/ScalarDataArray.hpp:911-917 | v - a equals valueMinusThis(v) |
| ScalarArrays.ValuePlusArray | src/include/sweet/ScalarDataArray.hpp:929-935 | v + a equals a + v |
| ScalarArrays.ValueDivArray | src/include/sweet/ScalarDataArray.hpp:941-947 | v / a equals valueDivThis(v) |
| ScalarArrays.ValueMinusInvolutive | src/include/sweet/ScalarDataArray.hpp:704-715 | v - (v - a) == a |
| ScalarArrays.ValueDivInvolutive | src/include/sweet/ScalarDataArray.hpp:722-733 | v / (v / a) == a for v != 0 and a without zeros, and v / a has no zeros |
| ScalarArrays.DivideByUndoesScale | src/include/sweet/ScalarDataArray.hpp:811-840 | (a * v) / v == a for v != 0 |
| ScalarArrays.SqrtEachSquares | src/include/sweet/ScalarDataArray.hpp:526-535 | sqrt(a) * sqrt(a) == a for non-negative elements |
| ScalarArrays.InvSqrtTimesSqrt | src/include/sweet/ScalarDataArray.hpp:526-551 | inv_sqrt(a) * sqrt(a) is all ones |
| ScalarArrays.ConstantUpdateIsSetAll | src/include/sweet/ScalarDataArray.hpp:185-212 | update_lambda_array_indices with a constant callback is physical_set_all |
| ScalarArrays.MapInto | src/include/sweet/ScalarDataArray.hpp:185-192 | the indexed loop writes f(i, a[i]) for i < n and nothing past n |
| ScalarArrays.ZipInto | src/include/sweet/ScalarDataArray.hpp:509-803 | the binary loop writes f(a[i], b[i]) for i < n and nothing past n, also in place |
| ScalarArrays.MaxAbsPrefix | src/include/sweet/ScalarDataArray.hpp:237-248 | the reduce_maxAbs loop |
| ScalarArrays.MaxPrefix | src/include/sweet/ScalarDataArray.hpp:304-314 | the reduce_max loop |
| ScalarArrays.MinPrefix | src/include/sweet/ScalarDataArray.hpp:320-330 | the reduce_min loop |
| ScalarArrays.SumPrefix | src/include/sweet/ScalarDataArray.hpp:336-346 | the reduce_sum loop |
| ScalarArrays.KahanSumPrefix | src/include/sweet/ScalarDataArray.hpp:352-373 | the Kahan loop returns the exact sum; its compensation stays zero over reals |
| ScalarArrays.SumAbsPrefix | src/include/sweet/ScalarDataArray.hpp:378-389 | the reduce_norm1 loop |
| ScalarArrays.KahanSumAbsPrefix | src/include/sweet/ScalarDataArray.hpp:394-415 | the Kahan loop of reduce_norm1_quad returns the exact 1-norm |
| ScalarArrays.SumSquaresPrefix | src/include/sweet/ScalarDataArray.hpp:421-432 | the reduce_norm2 loop |
| ScalarArrays.KahanSumSquaresPrefix | src/include/sweet/ScalarDataArray.hpp:438-460 | the Kahan loop of reduce_norm2_quad returns the exact sum of squares |
| Operators.Placed | src/include/sweet/DataArray.hpp:1001-1111 | setup_kernel's buffer for a 3 x 3 stencil has res0*res1 values |
| Operators.PlacedCell | src/include/sweet/DataArray.hpp:1001-1111 | on a grid of at least 3 x 3 cells, the stencil centre lands on cell (0, 0) and its neighbours wrap to the last row and column |
| Operators.MirroredEntry | src/include/sweet/DataArray.hpp:1019-1024 | the mirrored entry the wrap selects is the unmirrored entry the cell names |
| Operators.MirrorAt | src/include/sweet/DataArray.hpp:1019-1023 | entry (j, i) of the mirrored 3 x 3 stencil is k[j][2 - i] * scale |
| Operators.WrapThree | src/include/sweet/DataArray.hpp:1031-1106 | for a 3 x 3 stencil a grid index is reached exactly when it is one of the three wrapped positions |
| Operators.PlacedKernelSum | src/include/sweet/DataArray.hpp:1001-1111 | nothing is skipped or overwritten: the placed buffer sums to scale times the stencil's sum |
| Operators.PlacedCells | src/include/sweet/DataArray.hpp:1001-1111 | PlacedCell for every cell at once |
| Operators.CrossSum | src/include/sweet/Operators2D.hpp:312-381 | a placed cross-shaped stencil sums to scale times the stencil's sum |
| Operators.CrossPositions | src/include/sweet/Operators2D.hpp:312-381 | the five cells a cross-shaped stencil reaches are distinct and ordered in the buffer |
| Operators.FiveCellsSum | src/include/sweet/Operators2D.hpp:312-381 | a buffer zero except at five increasing positions sums to the five values |
| Operators.CrossCellAt | src/include/sweet/Operators2D.hpp:312-381 | one cell of a placed cross-shaped stencil, by flat position |
| Operators.CrossValueAt | src/include/sweet/Operators2D.hpp:312-381 | the stencil value of a cell is what the five cross cells give its position |
| Operators.CrossCells | src/include/sweet/Operators2D.hpp:312-381 | a cross-shaped stencil reaches five cells |
| Operators.CrossValues | src/include/sweet/Operators2D.hpp:312-381 | and gives five values to them |
| Operators.XDerivativeStencilsSumToZero | src/include/sweet/Operators2D.hpp:312-381 | the central, forward, backward and second differences in x, placed on a grid of at least 3 x 3 cells, sum to zero |
| Operators.YDerivativeStencilsSumToZero | src/include/sweet/Operators2D.hpp:312-381 | the same in y |
| Operators.PlacedZeroSum | src/include/sweet/Operators2D.hpp:312-381 | a stencil whose entries cancel places a zero-sum buffer whatever the scale |
| Operators.AveragesSumToOne | src/include/sweet/Operators2D.hpp:99-125 | the four averaging stencils at scale 1/2 sum to one |
| Operators.ShiftsSumToOne | src/include/sweet/Operators2D.hpp:386-412 | the four shift stencils sum to one |
| Operators.ShiftsAreUnitImpulses | src/include/sweet/Operators2D.hpp:386-412 | each shift field is a single 1 next to cell (0, 0) (left at (0, res0-1), right at (0, 1), up at (1, 0), down at (res1-1, 0)) and 0 elsewhere |
| Operators.CentralDiffXMatchesComplexStencil | src/include/sweet/Operators2D.hpp:314-319 | the bank's central x difference holds the same cells as the complex grid's finite-difference stencil |
| Operators.RealDiffXPattern | src/include/sweet/Operators2D.hpp:199-218 | the spectral diff_c_x loops (rows j < res1/2 mirrored to res1-1-j, columns i < res0/2) fit the half spectrum |
| Operators.RealDiffYPattern | src/include/sweet/Operators2D.hpp:282-298 | the spectral diff_c_y loops (rows 1 <= j < res1/2 mirrored to res1-j, columns i < res0/2) fit the half spectrum |
| Operators.RealDiffXIsWavenumber | src/include/sweet/Operators2D.hpp:199-218 | for even resolutions every cell of diff_c_x is i times the x wavenumber times 2 pi / L0 (zero in column 0) |
| Operators.RealDiffYIsWavenumber | src/include/sweet/Operators2D.hpp:282-298 | for an even number of rows every cell of diff_c_y below column res0/2 is i times the signed y wavenumber times 2 pi / L1, and the rest is zero |
| Operators.RealDiffPatternsZeroLines | src/include/sweet/Operators2D.hpp:199-298 | diff_c_x leaves the Nyquist column zero; diff_c_y leaves rows 0 and res1/2 and that column zero, whatever the multiplier |
| Operators.SquaredPatternHolds | src/include/sweet/Operators2D.hpp:307-308 | the cell-wise square of a pattern is the pattern of the squared multiplier |
| Operators.SquaredCell | src/include/sweet/Operators2D.hpp:307-308 | SquaredPatternHolds at one cell |
| Operators.NewKernelOperator | src/include/sweet/Operators2D.hpp:99-104 | a member constructed with the resolution and set up with the stencil and scale, holding the placed kernel and its spectrum |
| Operators.NewSpectralOperator | src/include/sweet/Operators2D.hpp:199-218 | a member whose spectrum holds the pattern and nothing valid on the Cartesian side |
| Operators.NewSquaredOperator | src/include/sweet/Operators2D.hpp:307-308 | a member assigned d(d): its spectrum is the cell-wise square of d's |
| Operators.NewAverages | src/include/sweet/Operators2D.hpp:99-125 | the four averaging members hold their stencils at scale 1/2; four plan references |
| Operators.NewShifts | src/include/sweet/Operators2D.hpp:386-412 | the four shift members hold their stencils at scale 1 |
| Operators.NewCentralDifferences | src/include/sweet/Operators2D.hpp:314-381 | the central first and second differences at 1/(2h) and 1/h^2 |
| Operators.NewOneSidedDifferences | src/include/sweet/Operators2D.hpp:339-366 | the forward and backward differences at 1/h |
| Operators.NewSpectralAxis | src/include/sweet/Operators2D.hpp:199-308 | one axis of the spectral build: the first derivative pattern and its square |
| Operators.NewSpectralCentral | src/include/sweet/Operators2D.hpp:197-308 | the spectral first derivatives with multipliers i k 2 pi / L and the second derivatives as their squares |
| Operators.NewUnsetDifferences | src/include/sweet/Operators2D.hpp:72-91 | the forward and backward differences of the spectral build: allocated, with no valid data |
| Operators.NewAveragesAndShifts | src/include/sweet/Operators2D.hpp:99-125 | the eight stencil members both builds share |
| Operators.NewFiniteDifferences | src/include/sweet/Operators2D.hpp:312-381 | all eight derivative members of the finite-difference build |
| Operators.NewSpectralDerivatives | src/include/sweet/Operators2D.hpp:127-311 | all eight derivative members of the spectral build; the one-sided ones left without data |
| Operators.SharedOperators | src/include/sweet/Operators2D.hpp:99-125 | the shared members as operator fields of the resolution, with eight plan references |
| Operators.DerivativeOperators | src/include/sweet/Operators2D.hpp:127-381 | the derivative members of either build, with the central first and second derivatives holding their spectra |
| Operators.Spacing | src/include/sweet/Operators2D.hpp:95 | h = domain / resolution is non-zero for a non-zero domain |
| Operators.ApplyBoth | src/include/sweet/Operators2D.hpp:50-55 | the two temporaries x(a) and y(a) hold the cell-wise products of a's spectrum with each operator |
| Operators.CombineAndRelease | src/include/sweet/Operators2D.hpp:50-55 | the two temporaries combined by + or -, then destroyed: one plan reference fewer |
| Operators.Combine | src/include/sweet/Operators2D.hpp:35-67 | the combined spectrum has the operands' length |
| Operators.ApplyPair | src/include/sweet/Operators2D.hpp:35-67 | x(a) op y(a) holds (x op y) applied to a, with one net plan reference |
| Operators.BankApply | src/include/sweet/Operators2D.hpp:35-67 | ApplyPair on two members of the bank; the others keep being operator fields |
| Operators.Operators2D.CentralMembers | src/include/sweet/Operators2D.hpp:18-31 | the central operators are fields of the bank's resolution |
| Operators.Operators2D.constructor | src/include/sweet/Operators2D.hpp:69-414 | a valid bank of the resolution (every member an operator field, the central first and second derivatives holding their spectra) with sixteen plan references |
| Operators.Operators2D.LaplaceSpectrum | src/include/sweet/Operators2D.hpp:50-55 | the spectrum of diff2_c_x + diff2_c_y has the spectral length |
| Operators.Operators2D.DiffDotSpectrum | src/include/sweet/Operators2D.hpp:62-67 | the spectrum of diff_c_x + diff_c_y has the spectral length |
| Operators.Operators2D.ArakawaSpectrum | src/include/sweet/Operators2D.hpp:35-42 | the spectrum of diff_c_y - diff_c_x has the spectral length |
| Operators.Operators2D.Laplace | src/include/sweet/Operators2D.hpp:50-55 | laplace(a) is the spectral field (diff2_c_x + diff2_c_y)(a); the bank stays valid and its spectra unchanged |
| Operators.Operators2D.DiffDot | src/include/sweet/Operators2D.hpp:62-67 | diff_dot(a) is (diff_c_x + diff_c_y)(a) |
| Operators.Operators2D.ArakawaJacobian | src/include/sweet/Operators2D.hpp:35-42 | arakawa_jacobian(a, b) is (diff_c_y - diff_c_x)(a), whatever b is |

## Left out

- Operators.Operators2D.constructor: states the bank's validity and its plan count, not the contents of each member. Those are stated by NewAveragesAndShifts, NewFiniteDifferences and NewSpectralDerivatives, which the constructor calls.
- DataArrays.DataArray.ScaleDown: the output's spectral buffer before the copy is left unspecified (an existential), because the constructor's first-touch fill values are not modelled. Dealiasing.AliasingRoundTrip shows that the result does not depend on it for an even number of rows.
- DataArrays.DataArray.RequestDataInSpectralSpace, DataArrays.DataArray.RequestDataInCartesianSpace: promise the transformed buffer only when the singleton's plan was built for the field's resolution (PlanMatches, part of CanRequestSpectral and CanRequestCartesian). The source never checks this, and FFTW run with a plan for another resolution reads or writes the wrong number of cells, which the model does not describe. Every operator whose precondition is CanRequestSpectral or CanRequestCartesian inherits the assumption, and so do the operator builders (Operators.NewKernelOperator, Operators.NewSquaredOperator, the builders that call them and Operators.Operators2D.constructor), which require that the main plan is absent or was built for their resolution (Operators.PlanReady). Only DataArrays.DataArray.ScaleDown accepts a mismatched plan, and it reports one through `planMismatch` (DataArrays.DataArray.RequestSpectrumOrMismatch).
- ComplexArrays.Complex2DArray.ToSpec, ComplexArrays.Complex2DArray.ToCart: require that the plan was built for the array's resolution, or for half of it when the array is aliasing-scaled (PlanFits), for the same reason. The source does not check this either.
- DataArrays.DataArray.ScaleDown: when `planMismatch` is set, the input's spectrum is not promised; the flag is raised and the stale spectral buffer is what gets resampled.
- Cells.CDivAsWritten, DataArrays.DataArray.SpecDivAsWritten: return (0, 0) for a cell where br^2 == bi^2. The source divides by zero there (an IEEE infinity or NaN), which reals cannot represent. The corrected DataArrays.DataArray.SpecDiv, through Cells.CDiv, divides by |b|^2 and returns (0, 0) only where b is zero.
- ScalarArrays.ScalarDataArray.DivAssignValue: requires v != 0. The source divides by zero otherwise (IEEE infinities and NaN are not modelled).
- ScalarArrays.ValueDivArray: requires every element of a to be non-zero, for the same reason.
- ScalarArrays.ScalarDataArray.ReduceRmsQuad, ComplexArrays.Complex2DArray.ReduceRmsQuad: require at least one element. For none the source divides zero by zero.
- ComplexArrays.Complex2DArray.OpSetupDiffX, ComplexArrays.Complex2DArray.OpSetupDiff2X, ComplexArrays.Complex2DArray.OpSetupDiffY, ComplexArrays.Complex2DArray.OpSetupDiff2Y, ComplexArrays.DiffXStencilInto, ComplexArrays.Diff2XStencilInto, ComplexArrays.DiffYStencilInto, ComplexArrays.Diff2YStencilInto: at resolution 1 in the stencil's direction the model keeps the source's writes, which no longer form a difference stencil (ComplexArrays.DiffXStencilOneColumn). Where a write falls past the buffer (a 1 x 1 grid) the source writes out of bounds; the model drops that write (ComplexArrays.DiffXStencilSingleCell). Resolution 0 is excluded.
- DataArrays.DataArray.Copy: keeps the aliasing mark but takes only a main reference, as the source does. Destroying such a copy therefore lowers the aliasing counter without a matching acquire (DataArrays.CopyOfAliasedFieldDropsAliasingReference); the model states this and does not correct it.
- DataArrays.DataArray.Destroy: follows the corrected destructor order (FftPlans.FftRegistry.Release). The as-written order is ReleaseAsWritten (finding F5).
- ScalarArrays.ScalarDataArray.ReduceRms: requires at least one element. For none the source divides zero by zero, which reals cannot represent.
- ScalarArrays.ScalarDataArray.DivArray, DivValue, ValueDivThis, InvSqrt: require non-zero divisors. IEEE infinities and NaN are not modelled.
- DataArrays.DataArray.DivField: requires a divisor without zeros, for the same reason.
- ScalarArrays.ScalarDataArray.Assign: requires a destination buffer that already holds the source's count. The source writes past the buffer otherwise.
- The transform: FFTW plan creation and execution are abstract. Only the output lengths and the 1/N scaling after a backward transform are modelled.
- Plan-creation failure, thread initialisation and the `#if SWEET_THREADING` paths are not modelled.
- Floating point: rounding, `__float128`, Kahan error bounds, `std::isfinite`. `DataArray::reduce_all_finite` (DataArray.hpp:874) and `ScalarDataArray::reduce_boolean_all_finite` (ScalarDataArray.hpp:219) are left out because every real is finite.
- The energy and centroid helpers of `Complex2DArrayFFT` are left out: `getNormSquared`, `return_centroidFromEnergy`, `return_energyCentroid` (528-596), and `getRealWithDataArray`, `getImagWithDataArray`, `loadRealFromDataArray` and `loadRealAndImagFromDataArrays` (937-1006). They are not part of the grid-field core this model covers.
- OpenMP parallel loops and the `omp atomic` counter updates are modelled sequentially.
- Allocation details are not modelled: `posix_memalign`, the NUMA allocators, and the first-touch dummy values (-12345, -123).
- The default `DataArray()` constructor (234-236) is left out. It leaves every field uninitialised.
- Printing: `operator<<`, `printSpectrum` and `ScalarDataArray::print`.
- The non-spectral build (`SWEET_USE_SPECTRAL_SPACE == 0`) is left out. This covers the 3 x 3 convolution, the Cartesian forms of the operators, the 3-D `setup_kernel` stub, and the fatal exit when spectral differences are requested without spectral space (Operators2D.hpp:135-137).
- The dealiased multiplication path under `SWEET_USE_SPECTRAL_DEALIASING` is left out, apart from the scaleUp and scaleDown index logic.
- `#if 0` blocks are left out.
- Zero resolutions and a zero domain length are excluded by preconditions. The source divides by them.
- The stencil-sum lemmas need at least 3 x 3 cells. On smaller grids the blocks of `setup_kernel` overlap.
- The wavenumber lemmas need even resolutions. The zero-line lemmas hold at every resolution.
- C++ evaluation order inside `x(a) + y(a)` is not modelled. The model applies x first; the result does not depend on the order. Temporaries are destroyed at the end of the expression.

## Findings

| source | as written | input that shows it | evidently intended | confidence | as-written member | corrected member |
|---|---|---|---|---|---|---|
| src/include/sweet/DataArray.hpp:1290-1322 | `spec_div_element_wise` computes (ar br - ai bi, ai br - ar bi) / (br^2 - bi^2) | a = (1, 0), b = (0, 1): gives (0, 1) = i, while 1 / i = -i; and b = (1, 1) divides by zero | the conjugate quotient (ar br + ai bi, ai br - ar bi) / (br^2 + bi^2), (0, 0) at a zero norm, as in `Complex2DArrayFFT::spec_div_element_wise` | high, not executed | DataArrays.DataArray.SpecDivAsWritten, Cells.CDivAsWrittenCounterexample | DataArrays.DataArray.SpecDiv, Cells.CellwiseDivUndoesMul |
| src/include/sweet/Complex2DArrayFFT.hpp:856-866 | `reduce_sumAbs` steps i by 2 up to 2N and reads `data[2i]` and `data[2i+1]` | any grid of two or more cells, e.g. 1 x 2: i = 2 reads positions 4 and 5 of a 4-double buffer | i over all 2N positions in steps of 2, reading `data[i]` and `data[i+1]` | high, not executed | ComplexArrays.Complex2DArray.ReduceSumAbsAsWritten, ComplexArrays.SumAbsStrided | ComplexArrays.Complex2DArray.ReduceSumAbs, ComplexArrays.SumAbsCells |
| src/include/sweet/DataArray.hpp:1697-1714 | unary `operator-` negates the spectral buffer without requesting it and without changing the flags | a Cartesian-valid field set to 1 everywhere: after negation `get` still reads 1 | request the spectrum, negate it, mark the Cartesian side stale | high, not executed | DataArrays.DataArray.NegateAsWritten, DataArrays.UnaryMinusKeepsGridValue | DataArrays.DataArray.NegateSpectrum |
| src/include/sweet/DataArray.hpp:1660-1689 | `operator-(double)` writes the spectrum but sets neither validity flag of the result | any field: the result can be requested in neither space | spectral valid and Cartesian stale, as in `operator+(double)` | high, not executed | DataArrays.DataArray.SubScalarAsWritten | DataArrays.DataArray.SubScalar, Cells.AddAtFirstInverse |
| src/include/sweet/DataArray.hpp:414-457 | the destructor deletes both singletons when the main counter reaches 0, then decrements the aliasing counter through the (now null) aliasing pointer | the last live field is aliasing-scaled, e.g. a field of 8 x 8 whose aliasing singleton was created at 12 x 12 | decrement the aliasing counter while the singleton exists, before the main release | medium, not executed | FftPlans.FftRegistry.ReleaseAsWritten, FftPlans.LastAliasedFieldCrashes | FftPlans.FftRegistry.Release, DataArrays.DataArray.Destroy |
