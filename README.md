# dfm_tools grid and naming helpers in Dafny

This project models two groups of logic from dfm_tools, the Python toolbox for
Delft3D and D-Flow FM output, and proves properties of the model.

1. **Structured grids** (`dfm_tools/regulargrid.py`).
   - `corner2center` averages values at the corners of grid cells to the cell centres.
   - `center2corner` goes the other way: it averages to the inner corners, then
     extrapolates one extra row and column on each side.
   - `uva2xymagdeg` turns Delft3D velocities on the U and V faces of a
     staggered grid into east/north components, speed and direction at the
     cell centres. The direction is in degrees counter-clockwise from east, in
     [0, 360). It masks dry and inactive cells.
2. **Variable names in a NetCDF dataset** (`dfm_tools/get_nc_helpers.py`).
   - `get_varnamefromattrs` resolves a requested name, trying in order: a
     variable key, a unique `standard_name`, a unique `long_name`.
   - `rename_waqvars` builds the map that renames water-quality variables
     after their `long_name`.

Files:

- `wrappers.dfy` (module `Wrappers`): `Option` and `Result`.
- `regulargrid_corners.dfy` (module `RegularGrid`): the corner/centre
  conversions, as pure functions over an `NdArray` value.
  - A matrix is a sequence of rows plus its column count, so that shapes such
    as (1, 0) can be written down.
  - Each exception the source raises, or the unbound local it reaches, is a
    `GridError`.
  - The partner property is the round trip: on data sampled from a plane, the
    two conversions invert each other.
- `regulargrid_velocity.dfy` (module `StaggeredVelocity`): `uva2xymagdeg`.
  - It works imperatively over `array2<Option<real>>`, with `None` for NaN.
    Like the source, it overwrites the caller's `U1` and `V1`, and fills the
    centre arrays through successive masking passes.
  - Each step is a method proved against cell-level specification functions
    (`CentreU`, `Masked`, `Rotate`, ...). Lemmas about those functions state
    what the steps mean.
  - cos, sin, sqrt and arctan2 are parameters (the `Trig` datatype). Only
    properties that hold for every such function, or under a stated identity
    such as cos² + sin² = 1, are proved.
- `get_nc_helpers.dfy` (module `NcHelpers`): both helpers, as pure functions
  over a `Dataset`.
  - A dataset is its variables in order. Each variable has a name, a flag
    saying whether it is a data variable, and its attributes. The dataset may
    also have a grid name.

### Where the code and its own documentation differ

The model follows the code in each case:

- The `uva2xymagdeg` docstring averages `Uc(m,n) = (U1(m,n) + U1(m-1,n))/2`.
  The code uses `np.nansum(...)/2` instead.
  - If one face value is missing, the centre gets half of the other value.
  - If both are missing, the centre gets 0, unless a mask later removes the cell.
  - `OneMissingFaceGivesHalf` and `TwoMissingFacesGiveZero` state this.
- The `uva2xymagdeg` docstring (`dfm_tools/regulargrid.py:236`) derives a
  nautical direction, `90` minus the mathematical one. The code at
  `dfm_tools/regulargrid.py:284` returns the mathematical direction, modulo
  360, under the name `direction_naut_deg`. The model (`Rotate`) follows the
  code.
- The comment at `dfm_tools/regulargrid.py:240` says -999 is replaced by 0.
  The code replaces it by NaN (`Clean`).
- The `NotImplementedError` message of `corner2center` says only 1-D and 2-D
  arrays are handled, but only rank > 3 raises it.
  - Rank 0 and rank 3 match no branch and reach `return cen` with `cen`
    unbound. The model returns `Err(CenUnbound)` there.
- The zero rule of `uva2xymagdeg` needs every contributing face value to be
  present and exactly 0, because `NaN == 0` is false.
  - The first row has no U pair and the first column no V pair, and both count
    as "no contribution". So cell (0, 0) is always masked.

## Model

| member | source | states |
|---|---|---|
| RegularGrid.PairMeans | dfm_tools/regulargrid.py:192-196 | a vector of n ≥ 1 values gives n−1 means, entry k being the mean of entries k and k+1 |
| RegularGrid.QuadMeans | dfm_tools/regulargrid.py:203-208 | two neighbouring rows of n values give n−1 block means, entry k being the mean of the four corners k and k+1 of both rows |
| RegularGrid.CellMeans | dfm_tools/regulargrid.py:203-208 | an (m, n) matrix gives (m−1, n−1) centres, each the mean of the 4 surrounding corners |
| RegularGrid.ColumnMeans | dfm_tools/regulargrid.py:200-202 | an (m, 1) matrix gives (m−1, 1) means of vertical neighbours |
| RegularGrid.Corner2Center | dfm_tools/regulargrid.py:190-211 | a vector shorter than 2 is a ValueError, otherwise pairwise means; in 2-D, an axis of length 0 is a ValueError (exactly then); (1, n) gives (1, n−1) means along the row, so (1, 1) gives (1, 0); (m, 1) gives (m−1, 1) means along the column; otherwise (m−1, n−1) 4-point means; rank > 3 is NotImplementedError, ranks 0 and 3 leave the result unbound |
| RegularGrid.ExtendRows | dfm_tools/regulargrid.py:150-153 | adds one row on top and one at the bottom, each the linear extrapolation 2·edge − inner of its column, and keeps the rows in between |
| RegularGrid.ExtendCols | dfm_tools/regulargrid.py:154-157 | adds one column left and right, each 2·edge − inner of its row, and keeps the columns in between |
| RegularGrid.Center2Corner | dfm_tools/regulargrid.py:141-160 | succeeds exactly on a matrix of at least 3 rows and 3 columns; rank ≠ 2 is a ValueError, an empty axis a ValueError, 1 or 2 rows or columns an IndexError; a success is a valid (m+1, n+1) matrix |
| RegularGrid.Grow | dfm_tools/regulargrid.py:150-157 | the rows then the columns are extended, so the result is two larger each way and holds the input in its interior |
| RegularGrid.GrowEdges | dfm_tools/regulargrid.py:150-157 | every added row and column, the four corners included, continues the line through its two neighbours |
| RegularGrid.Center2CornerIsGrow | dfm_tools/regulargrid.py:149-157 | center2corner is corner2center's 4-point means grown by the extrapolation |
| RegularGrid.Center2CornerInterior | dfm_tools/regulargrid.py:149-157 | corner (i, j) of the result, away from the border, is the mean of the four input centres around it |
| RegularGrid.Corner2CenterVectorExample | dfm_tools/regulargrid.py:173-174 | [1,3,5] gives [2,4] |
| RegularGrid.Corner2CenterRowExample | dfm_tools/regulargrid.py:176-177 | [[1,3,5]] gives [[2,4]] |
| RegularGrid.Corner2CenterColumnExample | dfm_tools/regulargrid.py:179-181 | [[1],[3],[5]] gives [[2],[4]] |
| RegularGrid.Corner2CenterMatrixExample | dfm_tools/regulargrid.py:183-184 | [[1,3,5],[2,6,10]] gives [[3,6]] |
| RegularGrid.Corner2CenterSingleCellExample | dfm_tools/regulargrid.py:197-199 | a (1, 1) matrix takes the single-row branch and gives an empty (1, 0) result |
| RegularGrid.CellMeansOfPlane | dfm_tools/regulargrid.py:203-208 | the 4-point means of a plane are the same plane shifted half a cell in each direction |
| RegularGrid.ExtendRowsOfPlane | dfm_tools/regulargrid.py:150-153 | row extrapolation continues a plane exactly |
| RegularGrid.ExtendColsOfPlane | dfm_tools/regulargrid.py:154-157 | column extrapolation continues a plane exactly |
| RegularGrid.Corner2CenterOfPlane | dfm_tools/regulargrid.py:203-208 | corners sampled from a plane give the centres of that plane |
| RegularGrid.Center2CornerOfPlane | dfm_tools/regulargrid.py:141-160 | centres sampled from a plane give the corners of that plane |
| RegularGrid.CornersOfPlaneRoundTrip | dfm_tools/regulargrid.py:141-211 | on planar centres of at least 3x3, corner2center(center2corner(c)) = c |
| RegularGrid.CentresFromPlaneCorners | dfm_tools/regulargrid.py:190-211 | corners of a plane, half a cell before given centres of the same plane, average back to exactly those centres |
| RegularGrid.CentresOfPlaneRoundTrip | dfm_tools/regulargrid.py:141-211 | on planar corners of at least 4x4, center2corner(corner2center(c)) = c |
| StaggeredVelocity.Clean | dfm_tools/regulargrid.py:241-242 | a value becomes missing exactly when it is missing or -999; any other value is kept |
| StaggeredVelocity.HalfNanSum | dfm_tools/regulargrid.py:249-250 | nansum/2 of a pair: the mean of two present values, half of the only present one, 0 when both are missing |
| StaggeredVelocity.CentreU | dfm_tools/regulargrid.py:245-249 | Uc is missing exactly in row 0; elsewhere it is the mean of two present U faces, and 0 (not missing) when both are missing |
| StaggeredVelocity.CentreV | dfm_tools/regulargrid.py:247-250 | Vc is missing exactly in column 0; elsewhere it is the mean of two present V faces, and 0 when both are missing |
| StaggeredVelocity.Masked | dfm_tools/regulargrid.py:253-279 | a cell whose face pairs are all missing is masked, so cell (0, 0) always is; without inactivewhen4x0 and without both KCU and KCV, that is the only reason |
| StaggeredVelocity.MaskedCentreU | dfm_tools/regulargrid.py:245-279 | masked Uc is missing exactly in row 0 or at a masked cell, and is otherwise the averaged Uc |
| StaggeredVelocity.MaskedCentreV | dfm_tools/regulargrid.py:247-279 | masked Vc is missing exactly in column 0 or at a masked cell, and is otherwise the averaged Vc |
| StaggeredVelocity.Mod360 | dfm_tools/regulargrid.py:284 | `% 360` lands in [0, 360), is the identity there, and adds 360 to a value in [−360, 0) |
| StaggeredVelocity.Rotate | dfm_tools/regulargrid.py:281-284 | all four outputs are missing exactly when Uc, Vc or ALFAS is; otherwise all four are present and the direction lies in [0, 360) |
| StaggeredVelocity.RotationKeepsSpeed | dfm_tools/regulargrid.py:281-283 | given cos² + sin² = 1 at the cell's angle, vel_x² + vel_y² = Uc² + Vc² and vel_magn is the speed of (Uc, Vc) |
| StaggeredVelocity.AlignedGridKeepsComponents | dfm_tools/regulargrid.py:281-283 | at an angle with cosine 1 and sine 0, vel_x = Uc and vel_y = Vc |
| StaggeredVelocity.MaskedTogether | dfm_tools/regulargrid.py:253-279 | away from the first row and column, masked Uc and masked Vc are missing exactly when the cell is masked, so always together |
| StaggeredVelocity.AllFacesMissingGivesNoVelocity | dfm_tools/regulargrid.py:253-259 | a cell whose four face values are all missing gets no velocity, speed or direction |
| StaggeredVelocity.OneMissingFaceGivesHalf | dfm_tools/regulargrid.py:249 | an unmasked cell with one missing U face gets half the other U face as Uc |
| StaggeredVelocity.TwoMissingFacesGiveZero | dfm_tools/regulargrid.py:249 | an unmasked cell with both U faces missing gets Uc = 0, not missing |
| StaggeredVelocity.ReplaceSentinel | dfm_tools/regulargrid.py:241 | every entry of the array, in place, becomes Clean of its old value |
| StaggeredVelocity.ReplaceSentinels | dfm_tools/regulargrid.py:241-242 | U1 and V1, even when they are the same array, end up as Clean of their old entries |
| StaggeredVelocity.CentreOnRows | dfm_tools/regulargrid.py:245-249 | a fresh array of U1's shape with row 0 missing and every other entry the half nansum of its vertical face pair |
| StaggeredVelocity.CentreOnColumns | dfm_tools/regulargrid.py:247-250 | a fresh array of V1's shape with column 0 missing and every other entry the half nansum of its horizontal face pair |
| StaggeredVelocity.ApplyMask | dfm_tools/regulargrid.py:253-279 | one masking pass sets both Uc and Vc to missing wherever its rule holds and leaves every other entry unchanged |
| StaggeredVelocity.RotateAll | dfm_tools/regulargrid.py:281-284 | four fresh arrays of the input's shape hold, cell by cell, the rotation of (Uc, Vc) by ALFAS |
| StaggeredVelocity.MaskedCentres | dfm_tools/regulargrid.py:244-279 | Uc and Vc after all passes: missing where all faces are missing, or (with inactivewhen4x0) all exactly 0, or (with KCU and KCV) the KCU/KCV sum is 0; otherwise the averaged centre value |
| StaggeredVelocity.Uva2XyMagDeg | dfm_tools/regulargrid.py:214-286 | U1 and V1 are cleaned in place; the four outputs have U1's shape and hold at each cell the rotation of the masked centre velocities; KCU and KCV default to absent and inactivewhen4x0 to true |
| NcHelpers.FilterByAttr | dfm_tools/get_nc_helpers.py:75-76 | lists the names of exactly the data variables whose attribute equals the value; the list is empty exactly when none matches |
| NcHelpers.FilterByAttrSingle | dfm_tools/get_nc_helpers.py:75-78 | a single matching data variable gives a list holding only its name |
| NcHelpers.FilterByAttrTwo | dfm_tools/get_nc_helpers.py:75-82 | two matching data variables give a list of at least two names |
| NcHelpers.GetVarNameFromAttrs | dfm_tools/get_nc_helpers.py:65-97 | a variable key (coordinates included) is returned unchanged before any attribute is consulted; every returned name is a variable of the dataset; NotFound exactly when no key, standard_name or long_name matches; an ambiguity lists at least two names |
| NcHelpers.UniqueStandardNameResolves | dfm_tools/get_nc_helpers.py:75-80 | with no such key and exactly one data variable carrying the name as standard_name, that variable is returned |
| NcHelpers.AmbiguousStandardNameRaises | dfm_tools/get_nc_helpers.py:81-82 | two standard_name matches raise, whatever long_name says |
| NcHelpers.UniqueLongNameResolves | dfm_tools/get_nc_helpers.py:85-90 | with no key and no standard_name match, a unique long_name match is returned |
| NcHelpers.AmbiguousLongNameRaises | dfm_tools/get_nc_helpers.py:91-92 | with no key and no standard_name match, two long_name matches raise |
| NcHelpers.Contains | dfm_tools/get_nc_helpers.py:120 | a string contains only substrings no longer than itself, and always contains the empty string |
| NcHelpers.WaqIndices | dfm_tools/get_nc_helpers.py:120 | the selected positions are strictly increasing and are exactly the positions of data variables whose name contains `water_quality_` |
| NcHelpers.WaqVars | dfm_tools/get_nc_helpers.py:120 | the filter over the data variables selects exactly as many variables as there are selected positions, and its t-th element is the variable at the t-th selected position, so the selection keeps the dataset's order |
| NcHelpers.AppendSelection | dfm_tools/get_nc_helpers.py:120 | a variable added at the end of the dataset is added at the end of the selection exactly when it is a data variable carrying `water_quality_` |
| NcHelpers.WaqVarsMembers | dfm_tools/get_nc_helpers.py:120 | the selection holds exactly the data variables whose name contains `water_quality_` |
| NcHelpers.WaqVarsUnique | dfm_tools/get_nc_helpers.py:120 | the selection of a dataset with unique names has unique names |
| NcHelpers.Prefix | dfm_tools/get_nc_helpers.py:116-119 | the grid name followed by `_` when there is a grid, empty otherwise |
| NcHelpers.Target | dfm_tools/get_nc_helpers.py:121 | the new name starts with the prefix and continues with the variable's long_name, nothing else |
| NcHelpers.FirstMissingLongName | dfm_tools/get_nc_helpers.py:121 | names the first selected variable without a long_name (where the comprehension raises KeyError), and is absent exactly when all have one |
| NcHelpers.RenameMapKeys | dfm_tools/get_nc_helpers.py:121-128 | the keys are exactly the selected variables that come first among those sharing a target, each mapped to prefix + its long_name |
| NcHelpers.RenameMapInjective | dfm_tools/get_nc_helpers.py:124-128 | no two variables are renamed to the same name |
| NcHelpers.RenameMapFirstWins | dfm_tools/get_nc_helpers.py:124-128 | with unique names, the first variable with a target is renamed to it and every later one keeps its name |
| NcHelpers.RenameMapUsesEveryTarget | dfm_tools/get_nc_helpers.py:121-128 | every selected variable's target is the new name of some variable |
| NcHelpers.RenameWaqVars | dfm_tools/get_nc_helpers.py:100-131 | fails exactly when a selected data variable has no long_name |
| NcHelpers.RenameWaqVarsKeysAndInjective | dfm_tools/get_nc_helpers.py:120-130 | only selected water-quality variables are renamed, and no two to the same name |
| NcHelpers.UnselectedKeepName | dfm_tools/get_nc_helpers.py:120-130 | a variable outside the selection is not renamed |
| NcHelpers.RenameWaqVarsKeepsFirst | dfm_tools/get_nc_helpers.py:116-128 | with unique names, the k-th variable of the dataset is renamed exactly when it is selected and no earlier selected variable has the same target, and then to its own target |
| NcHelpers.FirstOfTargetAtPosition | dfm_tools/get_nc_helpers.py:120-128 | a selected variable is first of its target in the selection exactly when no earlier selected variable of the dataset shares its target |
| NcHelpers.FirstAmongSelectedIsFirst | dfm_tools/get_nc_helpers.py:120-128 | first of its target in the selection implies first of its target among the selected variables before it in the dataset |
| NcHelpers.EarlierSelectedDiffers | dfm_tools/get_nc_helpers.py:120-128 | a selected variable earlier in the dataset than one that is first of its target has a different target |
| NcHelpers.EarlierPosition | dfm_tools/get_nc_helpers.py:120 | a water-quality variable before the t-th selected position is itself selected, at an earlier place than t |
| NcHelpers.EveryWaqTargetUsed | dfm_tools/get_nc_helpers.py:116-130 | every selected variable has a long_name, and its prefix + long_name is the new name of some variable |
| NcHelpers.ExampleSelection | dfm_tools/get_nc_helpers.py:120 | `mesh2d_water_quality_output_24` is selected and `mesh2d_s1` is not |
| NcHelpers.RenameWaqVarsExample | dfm_tools/get_nc_helpers.py:102 | in a mesh2d dataset, `mesh2d_water_quality_output_24` with long_name `DOscore` is renamed to `mesh2d_DOscore` |
| NcHelpers.DuplicateSelection | dfm_tools/get_nc_helpers.py:120 | two water-quality data variables are both selected, in order |
| NcHelpers.ExampleNames | dfm_tools/get_nc_helpers.py:120 | `mesh2d_water_quality_output_24`, `water_quality_output_1` and `water_quality_stat_1` contain `water_quality_`, and `mesh2d_s1` does not |
| NcHelpers.DuplicateRenameMap | dfm_tools/get_nc_helpers.py:124-128 | two variables with the same long_name give a dictionary holding only the first |
| NcHelpers.RenameWaqVarsDuplicateExample | dfm_tools/get_nc_helpers.py:124-128 | of two water-quality variables with the same long_name, only the first is renamed |

## Left out

- `rasterize_ugrid` and `scatter_to_regulargrid` are not modelled.
  - `rasterize_ugrid` delegates to xugrid and xarray and prints timings.
  - `scatter_to_regulargrid` only raises a deprecation error.
- Deprecation warnings and console output are not modelled. This covers the
  `warnings.warn` calls in `regulargrid.py` and the `print` calls in
  `get_nc_helpers.py`.
- `get_ncvarproperties` is not modelled. It builds the pandas table shown in
  the not-found message of `get_varnamefromattrs`. The messages of all the
  exceptions are left out; only their cause is kept, as a `GridError`,
  `LookupError` or `RenameError`.
- GetVarNameFromAttrs: on the not-found path the source calls
  `get_ncvarproperties`, which closes the caller's dataset
  (`dfm_tools/get_nc_helpers.py:60`) before the exception is raised. The model
  returns `NotFound` and does not model closing the dataset.
- GetVarNameFromAttrs: on the not-found path, selecting the `long_name` and
  `standard_name` columns (`dfm_tools/get_nc_helpers.py:95`) raises a pandas
  KeyError instead when no variable has one of those attributes. For a dataset
  with no variables at all, `pd.concat` of the empty list of rows
  (`dfm_tools/get_nc_helpers.py:57`) raises ValueError even earlier. The model
  returns `NotFound` in both cases.
- `ds.rename` itself is not modelled. The model stops at the rename map; a
  clash with an existing variable name is left to xarray.
- Floating point is not modelled. Values are reals, NaN appears only as a
  missing value, and infinities, −0.0 and rounding are not modelled (including
  the rare `% 360` that rounds to 360).
- The trigonometry is not modelled. cos, sin, sqrt and arctan2 come in through
  `Trig`, so no numeric value of the rotation is proved beyond the identities
  assumed in the lemmas.
- Integer input and lists are not modelled; the input is already an array of
  reals. For `corner2center`, numpy would coerce integer input to float and
  `np.asarray` would convert lists. For `uva2xymagdeg`, an integer U1 or V1
  holding -999 raises ValueError: NaN cannot be stored in an integer array
  (`dfm_tools/regulargrid.py:241-242`).
- Uva2XyMagDeg: requires U1, V1, ALFAS (and KCU and KCV when both are given)
  to have the same shape, and the model does not cover any other shape. numpy
  broadcasts some other shapes. It raises ValueError for shapes that cannot be
  broadcast: a V1 of another shape at `dfm_tools/regulargrid.py:250`, KCU or
  KCV at :275-276, ALFAS at :281. It raises IndexError when V1, KCU or KCV has
  fewer than 2 dimensions.
- Uva2XyMagDeg: KCU and KCV are arrays of reals. The integer flags Delft3D
  stores there take part only through their sum.
- Rotate: only the pattern of missing values and the range of the direction
  are stated for every `Trig`. The component values are stated only in the
  lemmas that assume cos² + sin² = 1, or an axis-aligned angle.
- RenameMapFirstWins: assumes unique variable names, which xarray guarantees;
  `RenameWaqVars` itself is defined without that assumption.
- Attribute values are strings. In xarray a non-string attribute never equals
  the requested name, which the model treats as no match. A non-string
  `long_name` would make the target concatenation raise TypeError, which is
  not modelled.
- `filter_by_attrs` also accepts callables as patterns. Here it is only ever
  called with a name, so only equality is modelled.
