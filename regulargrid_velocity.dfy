/** uva2xymagdeg in dfm_tools/regulargrid.py: velocities on the U and V faces
    of a staggered structured grid, averaged to the cell centres, masked where
    the cell is dry or inactive, and rotated to east/north components.

    numpy arrays of floats are `array2<Option<real>>`, with `None` for NaN. The
    source overwrites the caller's U1 and V1 in place, so those are modified
    here too. cos, sin, sqrt and arctan2 are not modelled: the caller passes
    them in a `Trig` value. */
module StaggeredVelocity {
  import opened Wrappers

  /** The value Delft3D writes where there is no data. */
  const Sentinel: real := -999.0

  predicate SameShape<S, T>(a: array2<S>, b: array2<T>) {
    a.Length0 == b.Length0 && a.Length1 == b.Length1
  }

  // ---------------------------------------------------------------------------
  // One value or one cell

  /** The sentinel becomes missing, any other value is kept (regulargrid.py:241-242). */
  function Clean(x: Option<real>): (r: Option<real>)
    ensures r.None? <==> x.None? || x == Some(Sentinel)
    ensures r.Some? ==> r == x
  {
    if x == Some(Sentinel) then None else x
  }

  function ValueOrZero(x: Option<real>): real {
    if x.Some? then x.value else 0.0
  }

  /** Half the NaN-ignoring sum of two values: a missing value counts as 0, so
      one missing value gives half of the other and two missing values give 0,
      not a missing value. */
  function HalfNanSum(a: Option<real>, b: Option<real>): (r: real)
    ensures a.Some? && b.Some? ==> r == (a.value + b.value) / 2.0
    ensures a.Some? && b.None? ==> r == a.value / 2.0
    ensures a.None? && b.Some? ==> r == b.value / 2.0
    ensures a.None? && b.None? ==> r == 0.0
  {
    (ValueOrZero(a) + ValueOrZero(b)) / 2.0
  }

  /** The centre value of U: half the NaN-ignoring sum of the U faces below and
      above the cell, missing in row 0 (regulargrid.py:245-249). */
  function CentreU(u: array2<Option<real>>, i: nat, j: nat): (r: Option<real>)
    reads u
    requires i < u.Length0 && j < u.Length1
    ensures r.None? <==> i == 0
    ensures i > 0 && u[i - 1, j].Some? && u[i, j].Some? ==> r == Some((u[i - 1, j].value + u[i, j].value) / 2.0)
    ensures i > 0 && u[i - 1, j].None? && u[i, j].None? ==> r == Some(0.0)
  {
    if i == 0 then None else Some(HalfNanSum(u[i - 1, j], u[i, j]))
  }

  /** The centre value of V: half the NaN-ignoring sum of the V faces left and
      right of the cell, missing in column 0 (regulargrid.py:247-250). */
  function CentreV(v: array2<Option<real>>, i: nat, j: nat): (r: Option<real>)
    reads v
    requires i < v.Length0 && j < v.Length1
    ensures r.None? <==> j == 0
    ensures j > 0 && v[i, j - 1].Some? && v[i, j].Some? ==> r == Some((v[i, j - 1].value + v[i, j].value) / 2.0)
    ensures j > 0 && v[i, j - 1].None? && v[i, j].None? ==> r == Some(0.0)
  {
    if j == 0 then None else Some(HalfNanSum(v[i, j - 1], v[i, j]))
  }

  /** The first masking pass (regulargrid.py:253-259): each face pair that
      exists is entirely missing. Row 0 has no U pair and column 0 no V pair;
      a pair that does not exist does not keep the cell. */
  predicate AllMissing(u: array2<Option<real>>, v: array2<Option<real>>, i: nat, j: nat)
    reads u, v
    requires SameShape(v, u) && i < u.Length0 && j < u.Length1
  {
    (i == 0 || (u[i - 1, j].None? && u[i, j].None?)) &&
    (j == 0 || (v[i, j - 1].None? && v[i, j].None?))
  }

  /** The second masking pass (regulargrid.py:261-269): each face pair that
      exists is two exact zeros; a missing value is not zero. */
  predicate AllZero(u: array2<Option<real>>, v: array2<Option<real>>, i: nat, j: nat)
    reads u, v
    requires SameShape(v, u) && i < u.Length0 && j < u.Length1
  {
    (i == 0 || (u[i - 1, j] == Some(0.0) && u[i, j] == Some(0.0))) &&
    (j == 0 || (v[i, j - 1] == Some(0.0) && v[i, j] == Some(0.0)))
  }

  /** The third masking pass sums the KCU flags of the two U faces and the KCV
      flags of the two V faces of the cell; a face pair outside the grid adds 0
      (regulargrid.py:272-277). */
  function KcSum(kcu: array2<real>, kcv: array2<real>, i: nat, j: nat): real
    reads kcu, kcv
    requires SameShape(kcv, kcu) && i < kcu.Length0 && j < kcu.Length1
  {
    (if i == 0 then 0.0 else kcu[i - 1, j] + kcu[i, j]) +
    (if j == 0 then 0.0 else kcv[i, j - 1] + kcv[i, j])
  }

  /** The three masking passes of the source, one at a time. */
  datatype MaskRule =
    | MissingFaces
    | ZeroFaces
    | InactiveFaces(kcu: array2<real>, kcv: array2<real>)

  function RuleObjects(rule: MaskRule): set<object> {
    if rule.InactiveFaces? then {rule.kcu, rule.kcv} else {}
  }

  predicate RuleFits(rule: MaskRule, u: array2<Option<real>>) {
    rule.InactiveFaces? ==> SameShape(rule.kcu, u) && SameShape(rule.kcv, u)
  }

  predicate RuleHolds(rule: MaskRule, u: array2<Option<real>>, v: array2<Option<real>>, i: nat, j: nat)
    reads u, v, RuleObjects(rule)
    requires SameShape(v, u) && RuleFits(rule, u) && i < u.Length0 && j < u.Length1
  {
    match rule
    case MissingFaces => AllMissing(u, v, i, j)
    case ZeroFaces => AllZero(u, v, i, j)
    case InactiveFaces(kcu, kcv) => KcSum(kcu, kcv, i, j) == 0.0
  }

  function MaskObjects(kcu: Option<array2<real>>, kcv: Option<array2<real>>): set<object> {
    (if kcu.Some? then {kcu.value} else {}) + (if kcv.Some? then {kcv.value} else {})
  }

  /** Whether one of the three passes sets the cell to NaN: all faces missing,
      all faces exactly zero (only when inactivewhen4x0), or, when both KCU
      and KCV are given, their sum over the cell's faces is zero. */
  predicate Masked(u: array2<Option<real>>, v: array2<Option<real>>,
                   kcu: Option<array2<real>>, kcv: Option<array2<real>>,
                   inactiveWhen4x0: bool, i: nat, j: nat)
    reads u, v, MaskObjects(kcu, kcv)
    requires SameShape(v, u) && i < u.Length0 && j < u.Length1
    requires kcu.Some? && kcv.Some? ==> SameShape(kcu.value, u) && SameShape(kcv.value, u)
    ensures i == 0 && j == 0 ==> Masked(u, v, kcu, kcv, inactiveWhen4x0, i, j)
    ensures AllMissing(u, v, i, j) ==> Masked(u, v, kcu, kcv, inactiveWhen4x0, i, j)
    ensures !inactiveWhen4x0 && (kcu.None? || kcv.None?) ==>
      (Masked(u, v, kcu, kcv, inactiveWhen4x0, i, j) <==> AllMissing(u, v, i, j))
  {
    AllMissing(u, v, i, j) ||
    (inactiveWhen4x0 && AllZero(u, v, i, j)) ||
    (kcu.Some? && kcv.Some? && KcSum(kcu.value, kcv.value, i, j) == 0.0)
  }

  /** Uc after the masking passes. */
  function MaskedCentreU(u: array2<Option<real>>, v: array2<Option<real>>,
                         kcu: Option<array2<real>>, kcv: Option<array2<real>>,
                         inactiveWhen4x0: bool, i: nat, j: nat): (r: Option<real>)
    reads u, v, MaskObjects(kcu, kcv)
    requires SameShape(v, u) && i < u.Length0 && j < u.Length1
    requires kcu.Some? && kcv.Some? ==> SameShape(kcu.value, u) && SameShape(kcv.value, u)
    ensures r.None? <==> i == 0 || Masked(u, v, kcu, kcv, inactiveWhen4x0, i, j)
    ensures r.Some? ==> r == CentreU(u, i, j)
  {
    if Masked(u, v, kcu, kcv, inactiveWhen4x0, i, j) then None else CentreU(u, i, j)
  }

  /** Vc after the masking passes. */
  function MaskedCentreV(u: array2<Option<real>>, v: array2<Option<real>>,
                         kcu: Option<array2<real>>, kcv: Option<array2<real>>,
                         inactiveWhen4x0: bool, i: nat, j: nat): (r: Option<real>)
    reads u, v, MaskObjects(kcu, kcv)
    requires SameShape(v, u) && i < u.Length0 && j < u.Length1
    requires kcu.Some? && kcv.Some? ==> SameShape(kcu.value, u) && SameShape(kcv.value, u)
    ensures r.None? <==> j == 0 || Masked(u, v, kcu, kcv, inactiveWhen4x0, i, j)
    ensures r.Some? ==> r == CentreV(v, i, j)
  {
    if Masked(u, v, kcu, kcv, inactiveWhen4x0, i, j) then None else CentreV(v, i, j)
  }

  /** The numerical functions the rotation uses, with angles in degrees:
      cosine, sine, square root and the two-argument arc tangent. */
  datatype Trig = Trig(cosDeg: real -> real, sinDeg: real -> real, sqrt: real -> real,
                       atan2Deg: (real, real) -> real)

  /** The four outputs at one cell. */
  datatype CellVelocity = CellVelocity(x: Option<real>, y: Option<real>, magnitude: Option<real>, direction: Option<real>)

  const NoVelocity := CellVelocity(None, None, None, None)

  /** The floored remainder modulo 360 of a float: the representative in [0, 360). */
  function Mod360(d: real): (r: real)
    ensures 0.0 <= r < 360.0
    ensures 0.0 <= d < 360.0 ==> r == d
    ensures -360.0 <= d < 0.0 ==> r == d + 360.0
  {
    d - 360.0 * ((d / 360.0).Floor as real)
  }

  /** The squared length of the vector (x, y). */
  function SquaredLength(x: real, y: real): (r: real)
    ensures r >= 0.0
  {
    x * x + y * y
  }

  /** The east and north components, the speed and the direction (degrees
      counter-clockwise from east) at one cell (regulargrid.py:281-284): a
      missing input makes all four missing. */
  function Rotate(uc: Option<real>, vc: Option<real>, alfa: Option<real>, trig: Trig): (r: CellVelocity)
    ensures r == NoVelocity <==> uc.None? || vc.None? || alfa.None?
    ensures r != NoVelocity ==> r.x.Some? && r.y.Some? && r.magnitude.Some? && r.direction.Some?
    ensures r.direction.Some? ==> 0.0 <= r.direction.value < 360.0
  {
    if uc.None? || vc.None? || alfa.None? then NoVelocity
    else
      var c, s := trig.cosDeg(alfa.value), trig.sinDeg(alfa.value);
      var x := uc.value * c - vc.value * s;
      var y := uc.value * s + vc.value * c;
      CellVelocity(Some(x), Some(y), Some(trig.sqrt(SquaredLength(x, y))), Some(Mod360(trig.atan2Deg(y, x))))
  }

  // ---------------------------------------------------------------------------
  // Properties of one cell

  /** A rotation keeps the speed: when the squares of the cosine and sine of
      the cell's angle add up to 1, the rotated vector has the squared length of
      the centre velocity, so the magnitude is the speed of that velocity. */
  lemma RotationKeepsSpeed(uc: real, vc: real, alfa: real, trig: Trig)
    requires trig.cosDeg(alfa) * trig.cosDeg(alfa) + trig.sinDeg(alfa) * trig.sinDeg(alfa) == 1.0
    ensures var r := Rotate(Some(uc), Some(vc), Some(alfa), trig);
      SquaredLength(r.x.value, r.y.value) == SquaredLength(uc, vc) &&
      r.magnitude == Some(trig.sqrt(SquaredLength(uc, vc)))
  {
  }

  /** With the grid aligned to the axes (an angle whose cosine is 1 and sine 0)
      the centre velocities pass through unchanged. */
  lemma AlignedGridKeepsComponents(uc: real, vc: real, alfa: real, trig: Trig)
    requires trig.cosDeg(alfa) == 1.0 && trig.sinDeg(alfa) == 0.0
    ensures var r := Rotate(Some(uc), Some(vc), Some(alfa), trig);
      r.x == Some(uc) && r.y == Some(vc) && r.magnitude == Some(trig.sqrt(SquaredLength(uc, vc)))
  {
  }

  /** Once masking is done Uc and Vc are NaN together at every cell that has
      both face pairs: the passes always set both. */
  lemma MaskedTogether(u: array2<Option<real>>, v: array2<Option<real>>,
                       kcu: Option<array2<real>>, kcv: Option<array2<real>>,
                       inactiveWhen4x0: bool, i: nat, j: nat)
    requires SameShape(v, u) && 1 <= i < u.Length0 && 1 <= j < u.Length1
    requires kcu.Some? && kcv.Some? ==> SameShape(kcu.value, u) && SameShape(kcv.value, u)
    ensures MaskedCentreU(u, v, kcu, kcv, inactiveWhen4x0, i, j).None? <==>
            Masked(u, v, kcu, kcv, inactiveWhen4x0, i, j)
    ensures MaskedCentreV(u, v, kcu, kcv, inactiveWhen4x0, i, j).None? <==>
            Masked(u, v, kcu, kcv, inactiveWhen4x0, i, j)
  {
  }

  /** A cell whose faces are all missing gets no velocity. */
  lemma AllFacesMissingGivesNoVelocity(u: array2<Option<real>>, v: array2<Option<real>>,
                                       alfas: array2<Option<real>>,
                                       kcu: Option<array2<real>>, kcv: Option<array2<real>>,
                                       inactiveWhen4x0: bool, trig: Trig, i: nat, j: nat)
    requires SameShape(v, u) && SameShape(alfas, u) && 1 <= i < u.Length0 && 1 <= j < u.Length1
    requires kcu.Some? && kcv.Some? ==> SameShape(kcu.value, u) && SameShape(kcv.value, u)
    requires u[i - 1, j].None? && u[i, j].None? && v[i, j - 1].None? && v[i, j].None?
    ensures Rotate(MaskedCentreU(u, v, kcu, kcv, inactiveWhen4x0, i, j),
                   MaskedCentreV(u, v, kcu, kcv, inactiveWhen4x0, i, j), alfas[i, j], trig) == NoVelocity
  {
  }

  /** A cell with one missing U face and nothing masked gets half of the other
      U face as Uc, not that face's value. */
  lemma OneMissingFaceGivesHalf(u: array2<Option<real>>, v: array2<Option<real>>,
                                kcu: Option<array2<real>>, kcv: Option<array2<real>>,
                                inactiveWhen4x0: bool, i: nat, j: nat)
    requires SameShape(v, u) && 1 <= i < u.Length0 && j < u.Length1
    requires kcu.Some? && kcv.Some? ==> SameShape(kcu.value, u) && SameShape(kcv.value, u)
    requires u[i - 1, j].None? && u[i, j].Some?
    requires !Masked(u, v, kcu, kcv, inactiveWhen4x0, i, j)
    ensures MaskedCentreU(u, v, kcu, kcv, inactiveWhen4x0, i, j) == Some(u[i, j].value / 2.0)
  {
  }

  /** A cell with both U faces missing but a V face present and nothing masked
      gets Uc = 0, not NaN. */
  lemma TwoMissingFacesGiveZero(u: array2<Option<real>>, v: array2<Option<real>>,
                                kcu: Option<array2<real>>, kcv: Option<array2<real>>,
                                inactiveWhen4x0: bool, i: nat, j: nat)
    requires SameShape(v, u) && 1 <= i < u.Length0 && j < u.Length1
    requires kcu.Some? && kcv.Some? ==> SameShape(kcu.value, u) && SameShape(kcv.value, u)
    requires u[i - 1, j].None? && u[i, j].None?
    requires !Masked(u, v, kcu, kcv, inactiveWhen4x0, i, j)
    ensures MaskedCentreU(u, v, kcu, kcv, inactiveWhen4x0, i, j) == Some(0.0)
  {
  }

  // ---------------------------------------------------------------------------
  // The steps of uva2xymagdeg, each on whole arrays

  /** Every sentinel becomes missing, nothing else changes (regulargrid.py:241). */
  method ReplaceSentinel(a: array2<Option<real>>)
    modifies a
    ensures forall i, j :: 0 <= i < a.Length0 && 0 <= j < a.Length1 ==> a[i, j] == Clean(old(a[i, j]))
  {
    var i := 0;
    while i < a.Length0
      invariant 0 <= i <= a.Length0
      invariant forall p, q :: 0 <= p < a.Length0 && 0 <= q < a.Length1 ==>
        a[p, q] == if p < i then Clean(old(a[p, q])) else old(a[p, q])
    {
      var j := 0;
      while j < a.Length1
        invariant 0 <= j <= a.Length1
        invariant forall p, q :: 0 <= p < a.Length0 && 0 <= q < a.Length1 ==>
          a[p, q] == if p < i || (p == i && q < j) then Clean(old(a[p, q])) else old(a[p, q])
      {
        if a[i, j] == Some(Sentinel) {
          a[i, j] := None;
        }
        j := j + 1;
      }
      i := i + 1;
    }
  }

  /** The U centres: missing in row 0, elsewhere half the NaN-ignoring sum of
      the vertical face pair (regulargrid.py:245-249). */
  method CentreOnRows(u: array2<Option<real>>) returns (uc: array2<Option<real>>)
    ensures fresh(uc) && SameShape(uc, u)
    ensures forall i, j :: 0 <= i < u.Length0 && 0 <= j < u.Length1 ==> uc[i, j] == CentreU(u, i, j)
  {
    uc := new Option<real>[u.Length0, u.Length1]((i, j) => None);
    var i := 1;
    while i < u.Length0
      invariant 1 <= i && (u.Length0 > 0 ==> i <= u.Length0)
      invariant forall p, q :: 0 <= p < u.Length0 && 0 <= q < u.Length1 ==>
        uc[p, q] == if p < i then CentreU(u, p, q) else None
    {
      var j := 0;
      while j < u.Length1
        invariant 0 <= j <= u.Length1
        invariant forall p, q :: 0 <= p < u.Length0 && 0 <= q < u.Length1 ==>
          uc[p, q] == if p < i || (p == i && q < j) then CentreU(u, p, q) else None
      {
        uc[i, j] := Some(HalfNanSum(u[i - 1, j], u[i, j]));
        j := j + 1;
      }
      i := i + 1;
    }
  }

  /** The V centres: missing in column 0, elsewhere half the NaN-ignoring sum
      of the horizontal face pair (regulargrid.py:247-250). */
  method CentreOnColumns(v: array2<Option<real>>) returns (vc: array2<Option<real>>)
    ensures fresh(vc) && SameShape(vc, v)
    ensures forall i, j :: 0 <= i < v.Length0 && 0 <= j < v.Length1 ==> vc[i, j] == CentreV(v, i, j)
  {
    vc := new Option<real>[v.Length0, v.Length1]((i, j) => None);
    var i := 0;
    while i < v.Length0
      invariant 0 <= i <= v.Length0
      invariant forall p, q :: 0 <= p < v.Length0 && 0 <= q < v.Length1 ==>
        vc[p, q] == if p < i then CentreV(v, p, q) else None
    {
      var j := 1;
      while j < v.Length1
        invariant 1 <= j && (v.Length1 > 0 ==> j <= v.Length1)
        invariant forall p, q :: 0 <= p < v.Length0 && 0 <= q < v.Length1 ==>
          vc[p, q] == if p < i || (p == i && q < j) then CentreV(v, p, q) else None
      {
        vc[i, j] := Some(HalfNanSum(v[i, j - 1], v[i, j]));
        j := j + 1;
      }
      i := i + 1;
    }
  }

  /** One masking pass: both centre values become missing at every cell the
      rule selects (regulargrid.py:258-259, 268-269, 278-279). */
  method ApplyMask(uc: array2<Option<real>>, vc: array2<Option<real>>,
                   u: array2<Option<real>>, v: array2<Option<real>>, rule: MaskRule)
    requires SameShape(uc, u) && SameShape(vc, u) && SameShape(v, u) && RuleFits(rule, u)
    requires uc != vc && uc != u && uc != v && vc != u && vc != v
    modifies uc, vc
    ensures forall i, j :: 0 <= i < u.Length0 && 0 <= j < u.Length1 ==>
      uc[i, j] == (if RuleHolds(rule, u, v, i, j) then None else old(uc[i, j])) &&
      vc[i, j] == (if RuleHolds(rule, u, v, i, j) then None else old(vc[i, j]))
  {
    var i := 0;
    while i < u.Length0
      invariant 0 <= i <= u.Length0
      invariant forall p, q :: 0 <= p < u.Length0 && 0 <= q < u.Length1 ==>
        uc[p, q] == (if p < i && RuleHolds(rule, u, v, p, q) then None else old(uc[p, q])) &&
        vc[p, q] == (if p < i && RuleHolds(rule, u, v, p, q) then None else old(vc[p, q]))
    {
      var j := 0;
      while j < u.Length1
        invariant 0 <= j <= u.Length1
        invariant forall p, q :: 0 <= p < u.Length0 && 0 <= q < u.Length1 ==>
          uc[p, q] == (if (p < i || (p == i && q < j)) && RuleHolds(rule, u, v, p, q) then None else old(uc[p, q])) &&
          vc[p, q] == (if (p < i || (p == i && q < j)) && RuleHolds(rule, u, v, p, q) then None else old(vc[p, q]))
      {
        if RuleHolds(rule, u, v, i, j) {
          uc[i, j] := None;
          vc[i, j] := None;
        }
        j := j + 1;
      }
      i := i + 1;
    }
  }

  /** The rotation of every cell (regulargrid.py:281-284). */
  method RotateAll(uc: array2<Option<real>>, vc: array2<Option<real>>, alfas: array2<Option<real>>, trig: Trig)
    returns (velX: array2<Option<real>>, velY: array2<Option<real>>,
             magn: array2<Option<real>>, dir: array2<Option<real>>)
    requires SameShape(vc, uc) && SameShape(alfas, uc)
    ensures fresh(velX) && fresh(velY) && fresh(magn) && fresh(dir)
    ensures SameShape(velX, uc) && SameShape(velY, uc) && SameShape(magn, uc) && SameShape(dir, uc)
    ensures forall i, j :: 0 <= i < uc.Length0 && 0 <= j < uc.Length1 ==>
      CellVelocity(velX[i, j], velY[i, j], magn[i, j], dir[i, j]) == Rotate(uc[i, j], vc[i, j], alfas[i, j], trig)
  {
    velX := new Option<real>[uc.Length0, uc.Length1];
    velY := new Option<real>[uc.Length0, uc.Length1];
    magn := new Option<real>[uc.Length0, uc.Length1];
    dir := new Option<real>[uc.Length0, uc.Length1];
    var i := 0;
    while i < uc.Length0
      invariant 0 <= i <= uc.Length0
      invariant forall p, q :: 0 <= p < i && 0 <= q < uc.Length1 ==>
        CellVelocity(velX[p, q], velY[p, q], magn[p, q], dir[p, q]) == Rotate(uc[p, q], vc[p, q], alfas[p, q], trig)
    {
      var j := 0;
      while j < uc.Length1
        invariant 0 <= j <= uc.Length1
        invariant forall p, q :: 0 <= p < uc.Length0 && 0 <= q < uc.Length1 && (p < i || (p == i && q < j)) ==>
          CellVelocity(velX[p, q], velY[p, q], magn[p, q], dir[p, q]) == Rotate(uc[p, q], vc[p, q], alfas[p, q], trig)
      {
        var cell := Rotate(uc[i, j], vc[i, j], alfas[i, j], trig);
        velX[i, j], velY[i, j], magn[i, j], dir[i, j] := cell.x, cell.y, cell.magnitude, cell.direction;
        j := j + 1;
      }
      i := i + 1;
    }
  }

  /** Both sentinel replacements; U1 and V1 may be the same array. */
  method ReplaceSentinels(u: array2<Option<real>>, v: array2<Option<real>>)
    requires SameShape(v, u)
    modifies u, v
    ensures forall i, j :: 0 <= i < u.Length0 && 0 <= j < u.Length1 ==>
      u[i, j] == Clean(old(u[i, j])) && v[i, j] == Clean(old(v[i, j]))
  {
    ReplaceSentinel(u);
    ReplaceSentinel(v);
  }

  /** Uc and Vc at the cell centres, with the three masking passes applied
      in the source's order (the last only when both KCU and KCV are given). */
  method MaskedCentres(u: array2<Option<real>>, v: array2<Option<real>>,
                       kcu: Option<array2<real>>, kcv: Option<array2<real>>, inactiveWhen4x0: bool)
    returns (uc: array2<Option<real>>, vc: array2<Option<real>>)
    requires SameShape(v, u)
    requires kcu.Some? && kcv.Some? ==> SameShape(kcu.value, u) && SameShape(kcv.value, u)
    ensures fresh(uc) && fresh(vc) && SameShape(uc, u) && SameShape(vc, u)
    ensures forall i, j :: 0 <= i < u.Length0 && 0 <= j < u.Length1 ==>
      uc[i, j] == MaskedCentreU(u, v, kcu, kcv, inactiveWhen4x0, i, j) &&
      vc[i, j] == MaskedCentreV(u, v, kcu, kcv, inactiveWhen4x0, i, j)
  {
    uc := CentreOnRows(u);
    vc := CentreOnColumns(v);
    label centred:
    ApplyMask(uc, vc, u, v, MissingFaces);
    label afterMissing:
    if inactiveWhen4x0 {
      ApplyMask(uc, vc, u, v, ZeroFaces);
    }
    label afterZero:
    if kcu.Some? && kcv.Some? {
      ApplyMask(uc, vc, u, v, InactiveFaces(kcu.value, kcv.value));
    }
    forall i, j | 0 <= i < u.Length0 && 0 <= j < u.Length1
      ensures uc[i, j] == MaskedCentreU(u, v, kcu, kcv, inactiveWhen4x0, i, j)
      ensures vc[i, j] == MaskedCentreV(u, v, kcu, kcv, inactiveWhen4x0, i, j)
    {
      var missing := AllMissing(u, v, i, j);
      var zero := inactiveWhen4x0 && AllZero(u, v, i, j);
      assert old@centred(uc[i, j]) == CentreU(u, i, j) && old@centred(vc[i, j]) == CentreV(v, i, j);
      assert old@afterMissing(uc[i, j]) == if missing then None else CentreU(u, i, j);
      assert old@afterMissing(vc[i, j]) == if missing then None else CentreV(v, i, j);
      assert old@afterZero(uc[i, j]) == if missing || zero then None else CentreU(u, i, j);
      assert old@afterZero(vc[i, j]) == if missing || zero then None else CentreV(v, i, j);
    }
  }

  /** uva2xymagdeg: U1 and V1 lose their sentinels in place; the four outputs
      have U1's shape and hold, at each cell, the rotation of the masked centre
      velocities (NaN wherever Uc, Vc or ALFAS is NaN). As in the source, KCU
      and KCV default to absent and inactiveWhen4x0 to true. */
  method Uva2XyMagDeg(u: array2<Option<real>>, v: array2<Option<real>>, alfas: array2<Option<real>>, trig: Trig,
                      kcu: Option<array2<real>> := None, kcv: Option<array2<real>> := None,
                      inactiveWhen4x0: bool := true)
    returns (velX: array2<Option<real>>, velY: array2<Option<real>>,
             magn: array2<Option<real>>, dir: array2<Option<real>>)
    requires SameShape(v, u) && SameShape(alfas, u)
    requires kcu.Some? && kcv.Some? ==> SameShape(kcu.value, u) && SameShape(kcv.value, u)
    modifies u, v
    ensures forall i, j :: 0 <= i < u.Length0 && 0 <= j < u.Length1 ==>
      u[i, j] == Clean(old(u[i, j])) && v[i, j] == Clean(old(v[i, j]))
    ensures fresh(velX) && fresh(velY) && fresh(magn) && fresh(dir)
    ensures SameShape(velX, u) && SameShape(velY, u) && SameShape(magn, u) && SameShape(dir, u)
    ensures forall i, j :: 0 <= i < u.Length0 && 0 <= j < u.Length1 ==>
      CellVelocity(velX[i, j], velY[i, j], magn[i, j], dir[i, j]) ==
      Rotate(MaskedCentreU(u, v, kcu, kcv, inactiveWhen4x0, i, j),
             MaskedCentreV(u, v, kcu, kcv, inactiveWhen4x0, i, j), alfas[i, j], trig)
  {
    ReplaceSentinels(u, v);
    var uc, vc := MaskedCentres(u, v, kcu, kcv, inactiveWhen4x0);
    velX, velY, magn, dir := RotateAll(uc, vc, alfas, trig);
  }
}
