/** get_varnamefromattrs and rename_waqvars in dfm_tools/get_nc_helpers.py:
    resolving a requested variable name against a dataset, and building the
    map that renames Delft3D water-quality variables after their long_name.

    A dataset is its variables in order (coordinates and data variables
    alike, as in `Dataset.variables`), each with its attributes, plus the
    name of its grid when it is a UGRID dataset. */
module NcHelpers {
  import opened Wrappers

  datatype Variable = Variable(name: string, isDataVar: bool, attrs: map<string, string>)

  datatype Dataset = Dataset(variables: seq<Variable>, grid: Option<string>)

  /** Variable names are unique in an xarray dataset. */
  predicate UniqueNames(vars: seq<Variable>) {
    forall i, j :: 0 <= i < |vars| && 0 <= j < |vars| && i != j ==> vars[i].name != vars[j].name
  }

  /** `name` is the name of one of the variables (get_nc_helpers.py:70-71). */
  predicate IsVariableName(vars: seq<Variable>, name: string) {
    exists i :: 0 <= i < |vars| && vars[i].name == name
  }

  // ---------------------------------------------------------------------------
  // get_varnamefromattrs

  /** A data variable whose attribute `attr` equals `value`: what the
      attribute filter keeps (get_nc_helpers.py:75, 85). */
  predicate HasAttr(v: Variable, attr: string, value: string) {
    v.isDataVar && attr in v.attrs && v.attrs[attr] == value
  }

  /** The names of the data variables the attribute filter keeps, in order. */
  function FilterByAttr(vars: seq<Variable>, attr: string, value: string): (r: seq<string>)
    ensures |r| <= |vars|
    ensures forall n :: n in r <==>
      exists i :: 0 <= i < |vars| && HasAttr(vars[i], attr, value) && vars[i].name == n
    ensures |r| == 0 <==> forall i :: 0 <= i < |vars| ==> !HasAttr(vars[i], attr, value)
  {
    if |vars| == 0 then []
    else
      var rest := FilterByAttr(vars[1..], attr, value);
      assert forall i :: 0 < i < |vars| ==> vars[i] == vars[1..][i - 1];
      if HasAttr(vars[0], attr, value) then [vars[0].name] + rest else rest
  }

  /** A single matching data variable gives a one-element list. */
  lemma {:induction false} FilterByAttrSingle(vars: seq<Variable>, attr: string, value: string, k: nat)
    requires k < |vars| && HasAttr(vars[k], attr, value)
    requires forall i :: 0 <= i < |vars| && i != k ==> !HasAttr(vars[i], attr, value)
    ensures FilterByAttr(vars, attr, value) == [vars[k].name]
    decreases |vars|
  {
    if k == 0 {
      assert forall i :: 0 <= i < |vars[1..]| ==> !HasAttr(vars[1..][i], attr, value) by {
        forall i | 0 <= i < |vars[1..]| ensures !HasAttr(vars[1..][i], attr, value) {
          assert vars[1..][i] == vars[i + 1];
        }
      }
    } else {
      forall i | 0 <= i < |vars[1..]| && i != k - 1 ensures !HasAttr(vars[1..][i], attr, value) {
        assert vars[1..][i] == vars[i + 1];
      }
      FilterByAttrSingle(vars[1..], attr, value, k - 1);
    }
  }

  /** Two matching data variables give a list of at least two names. */
  lemma {:induction false} FilterByAttrTwo(vars: seq<Variable>, attr: string, value: string, k1: nat, k2: nat)
    requires k1 < k2 < |vars| && HasAttr(vars[k1], attr, value) && HasAttr(vars[k2], attr, value)
    ensures |FilterByAttr(vars, attr, value)| >= 2
    decreases |vars|
  {
    assert vars[1..][k2 - 1] == vars[k2];
    if k1 > 0 {
      assert vars[1..][k1 - 1] == vars[k1];
      FilterByAttrTwo(vars[1..], attr, value, k1 - 1, k2 - 1);
    }
  }

  /** Why get_varnamefromattrs raises. */
  datatype LookupError =
    | Ambiguous(attr: string, matches: seq<string>)  // several data variables carry the name
    | NotFound(name: string)                           // nothing carries it

  /** get_varnamefromattrs: an exact variable name wins, then a unique
      standard_name match, then a unique long_name match; several matches on
      the attribute being tried, or no match at all, raise. */
  function GetVarNameFromAttrs(ds: Dataset, varname: string): (r: Result<string, LookupError>)
    ensures IsVariableName(ds.variables, varname) ==> r == Ok(varname)
    ensures r.Ok? ==> IsVariableName(ds.variables, r.value)
    ensures r == Err(NotFound(varname)) <==>
      !IsVariableName(ds.variables, varname) &&
      (forall i :: 0 <= i < |ds.variables| ==>
        !HasAttr(ds.variables[i], "standard_name", varname) && !HasAttr(ds.variables[i], "long_name", varname))
    ensures r.Err? && r.error.Ambiguous? ==> |r.error.matches| >= 2
  {
    if IsVariableName(ds.variables, varname) then Ok(varname)
    else
      var byStandardName := FilterByAttr(ds.variables, "standard_name", varname);
      if |byStandardName| == 1 then
        assert byStandardName[0] in byStandardName;
        Ok(byStandardName[0])
      else if |byStandardName| > 1 then Err(Ambiguous("standard_name", byStandardName))
      else
        var byLongName := FilterByAttr(ds.variables, "long_name", varname);
        if |byLongName| == 1 then
          assert byLongName[0] in byLongName;
          Ok(byLongName[0])
        else if |byLongName| > 1 then Err(Ambiguous("long_name", byLongName))
        else Err(NotFound(varname))
  }

  /** When the name is not a variable and exactly one data variable has it as
      standard_name, that variable is the answer. */
  lemma UniqueStandardNameResolves(ds: Dataset, varname: string, k: nat)
    requires !IsVariableName(ds.variables, varname)
    requires k < |ds.variables| && HasAttr(ds.variables[k], "standard_name", varname)
    requires forall i :: 0 <= i < |ds.variables| && i != k ==> !HasAttr(ds.variables[i], "standard_name", varname)
    ensures GetVarNameFromAttrs(ds, varname) == Ok(ds.variables[k].name)
  {
    FilterByAttrSingle(ds.variables, "standard_name", varname, k);
  }

  /** Two data variables with the name as standard_name raise, whatever the
      long_name attributes say. */
  lemma AmbiguousStandardNameRaises(ds: Dataset, varname: string, k1: nat, k2: nat)
    requires !IsVariableName(ds.variables, varname)
    requires k1 < k2 < |ds.variables|
    requires HasAttr(ds.variables[k1], "standard_name", varname) && HasAttr(ds.variables[k2], "standard_name", varname)
    ensures GetVarNameFromAttrs(ds, varname) ==
      Err(Ambiguous("standard_name", FilterByAttr(ds.variables, "standard_name", varname)))
  {
    FilterByAttrTwo(ds.variables, "standard_name", varname, k1, k2);
  }

  /** long_name is consulted only when no data variable has the name as
      standard_name; a unique match there is the answer. */
  lemma UniqueLongNameResolves(ds: Dataset, varname: string, k: nat)
    requires !IsVariableName(ds.variables, varname)
    requires forall i :: 0 <= i < |ds.variables| ==> !HasAttr(ds.variables[i], "standard_name", varname)
    requires k < |ds.variables| && HasAttr(ds.variables[k], "long_name", varname)
    requires forall i :: 0 <= i < |ds.variables| && i != k ==> !HasAttr(ds.variables[i], "long_name", varname)
    ensures GetVarNameFromAttrs(ds, varname) == Ok(ds.variables[k].name)
  {
    FilterByAttrSingle(ds.variables, "long_name", varname, k);
  }

  /** Two data variables with the name as long_name (and none with it as
      standard_name) raise. */
  lemma AmbiguousLongNameRaises(ds: Dataset, varname: string, k1: nat, k2: nat)
    requires !IsVariableName(ds.variables, varname)
    requires forall i :: 0 <= i < |ds.variables| ==> !HasAttr(ds.variables[i], "standard_name", varname)
    requires k1 < k2 < |ds.variables|
    requires HasAttr(ds.variables[k1], "long_name", varname) && HasAttr(ds.variables[k2], "long_name", varname)
    ensures GetVarNameFromAttrs(ds, varname) ==
      Err(Ambiguous("long_name", FilterByAttr(ds.variables, "long_name", varname)))
  {
    FilterByAttrTwo(ds.variables, "long_name", varname, k1, k2);
  }

  // ---------------------------------------------------------------------------
  // rename_waqvars

  const WaqMarker := "water_quality_"

  /** `sub` occurs in `s` starting at index k. */
  predicate OccursAt(s: string, sub: string, k: nat) {
    k + |sub| <= |s| && s[k..k + |sub|] == sub
  }

  /** Substring test on strings: some position of `s` starts an occurrence of
      `sub`. The empty string occurs in every string. */
  predicate Contains(s: string, sub: string)
    ensures Contains(s, sub) ==> |sub| <= |s|
    ensures |sub| == 0 ==> Contains(s, sub)
  {
    assert |sub| == 0 ==> OccursAt(s, sub, 0);
    exists k: nat | k <= |s| :: OccursAt(s, sub, k)
  }

  /** The data variables rename_waqvars selects. */
  predicate IsWaqVar(v: Variable) {
    v.isDataVar && Contains(v.name, WaqMarker)
  }

  /** The positions of the selected variables: strictly increasing, so in the
      dataset's order, and exactly the positions of water-quality data variables. */
  function WaqIndices(vars: seq<Variable>): (r: seq<nat>)
    ensures |r| <= |vars|
    ensures forall t :: 0 <= t < |r| ==> r[t] < |vars| && IsWaqVar(vars[r[t]])
    ensures forall s, t :: 0 <= s < t < |r| ==> r[s] < r[t]
    ensures forall i {:trigger IsWaqVar(vars[i])} :: 0 <= i < |vars| && IsWaqVar(vars[i]) ==> i in r
  {
    if |vars| == 0 then []
    else
      var n := |vars| - 1;
      assert forall i :: 0 <= i < n ==> vars[..n][i] == vars[i];
      WaqIndices(vars[..n]) + (if IsWaqVar(vars[n]) then [n] else [])
  }

  /** The selected data variables, in the dataset's order: the t-th selected
      variable sits at the t-th selected position. */
  function WaqVars(vars: seq<Variable>): (r: seq<Variable>)
    ensures |r| == |WaqIndices(vars)| <= |vars|
    ensures forall t :: 0 <= t < |r| ==> r[t] == vars[WaqIndices(vars)[t]]
  {
    if |vars| == 0 then []
    else
      var n := |vars| - 1;
      assert forall i :: 0 <= i < n ==> vars[..n][i] == vars[i];
      WaqVars(vars[..n]) + (if IsWaqVar(vars[n]) then [vars[n]] else [])
  }

  /** The selection holds exactly the water-quality data variables. */
  lemma WaqVarsMembers(vars: seq<Variable>)
    ensures forall v :: v in WaqVars(vars) <==> v in vars && IsWaqVar(v)
  {
    var idx, r := WaqIndices(vars), WaqVars(vars);
    forall v | v in vars && IsWaqVar(v) ensures v in r {
      var i :| 0 <= i < |vars| && vars[i] == v;
      var t :| 0 <= t < |idx| && idx[t] == i;
      assert r[t] == v;
    }
  }

  /** Appending a variable to the dataset appends it to the selection exactly
      when it is a water-quality data variable. */
  lemma {:induction false} AppendSelection(vars: seq<Variable>, v: Variable)
    ensures WaqVars(vars + [v]) == WaqVars(vars) + (if IsWaqVar(v) then [v] else [])
  {
    assert (vars + [v])[..|vars|] == vars;
  }

  /** The selection keeps the dataset's names unique. */
  lemma WaqVarsUnique(vars: seq<Variable>)
    requires UniqueNames(vars)
    ensures UniqueNames(WaqVars(vars))
  {
    var idx := WaqIndices(vars);
    var w := WaqVars(vars);
    forall s, t | 0 <= s < |w| && 0 <= t < |w| && s != t ensures w[s].name != w[t].name {
      assert idx[s] != idx[t];
    }
  }

  /** The grid's name followed by an underscore for a dataset with a grid, the
      empty string otherwise (get_nc_helpers.py:116-119). */
  function Prefix(ds: Dataset): (r: string)
    ensures ds.grid.None? ==> r == ""
    ensures ds.grid.Some? ==> |r| == |ds.grid.value| + 1 && r[..|ds.grid.value|] == ds.grid.value && r[|ds.grid.value|] == '_'
  {
    if ds.grid.Some? then ds.grid.value + "_" else ""
  }

  predicate AllHaveLongName(w: seq<Variable>) {
    forall i :: 0 <= i < |w| ==> "long_name" in w[i].attrs
  }

  /** The new name: the prefix followed by the variable's long_name
      (get_nc_helpers.py:121). */
  function Target(v: Variable, prefix: string): (r: string)
    requires "long_name" in v.attrs
    ensures |r| == |prefix| + |v.attrs["long_name"]|
    ensures r[..|prefix|] == prefix && r[|prefix|..] == v.attrs["long_name"]
  {
    prefix + v.attrs["long_name"]
  }

  /** Whether w[i] is the first variable with its target; the later ones are
      the duplicates that get_nc_helpers.py:125-128 drops. */
  predicate FirstOfTarget(w: seq<Variable>, prefix: string, i: nat)
    requires AllHaveLongName(w) && i < |w|
  {
    forall k :: 0 <= k < i ==> Target(w[k], prefix) != Target(w[i], prefix)
  }

  /** The rename dictionary after dropping duplicated targets, keeping the first. */
  function RenameMap(w: seq<Variable>, prefix: string): (m: map<string, string>)
    requires AllHaveLongName(w)
  {
    if |w| == 0 then map[]
    else
      var n := |w| - 1;
      var m := RenameMap(w[..n], prefix);
      if FirstOfTarget(w, prefix, n) then m[w[n].name := Target(w[n], prefix)] else m
  }

  /** FirstOfTarget on a prefix of w agrees with FirstOfTarget on w. */
  lemma FirstOfTargetOnPrefix(w: seq<Variable>, prefix: string, n: nat)
    requires AllHaveLongName(w) && n <= |w|
    ensures AllHaveLongName(w[..n])
    ensures forall i :: 0 <= i < n ==> (FirstOfTarget(w[..n], prefix, i) <==> FirstOfTarget(w, prefix, i))
  {
    assert forall i :: 0 <= i < n ==> w[..n][i] == w[i];
  }

  /** The keys are exactly the first variables of each target, and each is
      mapped to its own target. */
  lemma {:induction false} RenameMapKeys(w: seq<Variable>, prefix: string)
    requires AllHaveLongName(w)
    ensures forall name :: name in RenameMap(w, prefix) <==>
      exists i :: 0 <= i < |w| && w[i].name == name && FirstOfTarget(w, prefix, i)
    ensures forall name :: name in RenameMap(w, prefix) ==>
      exists i :: 0 <= i < |w| && w[i].name == name && FirstOfTarget(w, prefix, i) &&
        RenameMap(w, prefix)[name] == Target(w[i], prefix)
    decreases |w|
  {
    if |w| > 0 {
      var n := |w| - 1;
      FirstOfTargetOnPrefix(w, prefix, n);
      assert forall i :: 0 <= i < n ==> w[..n][i] == w[i];
      RenameMapKeys(w[..n], prefix);
    }
  }

  /** No two variables are renamed to the same name. */
  lemma {:induction false} RenameMapInjective(w: seq<Variable>, prefix: string)
    requires AllHaveLongName(w)
    ensures forall a, b :: a in RenameMap(w, prefix) && b in RenameMap(w, prefix) && a != b ==>
      RenameMap(w, prefix)[a] != RenameMap(w, prefix)[b]
    decreases |w|
  {
    if |w| > 0 {
      var n := |w| - 1;
      FirstOfTargetOnPrefix(w, prefix, n);
      assert forall i :: 0 <= i < n ==> w[..n][i] == w[i];
      var m := RenameMap(w[..n], prefix);
      RenameMapInjective(w[..n], prefix);
      RenameMapKeys(w[..n], prefix);
      if FirstOfTarget(w, prefix, n) {
        forall a | a in m ensures m[a] != Target(w[n], prefix) {
          var i :| 0 <= i < n && w[..n][i].name == a && m[a] == Target(w[..n][i], prefix);
          assert Target(w[i], prefix) != Target(w[n], prefix);
        }
      }
    }
  }

  /** Why rename_waqvars fails: a selected variable has no long_name (KeyError). */
  datatype RenameError = MissingLongName(name: string)

  /** The first selected variable without a long_name, if any. */
  function FirstMissingLongName(w: seq<Variable>): (r: Option<string>)
    ensures r.None? <==> AllHaveLongName(w)
    ensures r.Some? ==>
      exists i :: 0 <= i < |w| && w[i].name == r.value && "long_name" !in w[i].attrs &&
        (forall k :: 0 <= k < i ==> "long_name" in w[k].attrs)
  {
    if |w| == 0 then None
    else if "long_name" !in w[0].attrs then Some(w[0].name)
    else
      var r := FirstMissingLongName(w[1..]);
      assert forall i :: 0 < i < |w| ==> w[i] == w[1..][i - 1];
      if r.Some? then
        var i :| 0 <= i < |w[1..]| && w[1..][i].name == r.value && "long_name" !in w[1..][i].attrs &&
          (forall k :: 0 <= k < i ==> "long_name" in w[1..][k].attrs);
        assert w[i + 1].name == r.value && "long_name" !in w[i + 1].attrs;
        r
      else r
  }

  /** rename_waqvars: the map from each selected water-quality variable to
      its new name, or the KeyError of a selected variable without long_name. */
  function RenameWaqVars(ds: Dataset): (r: Result<map<string, string>, RenameError>)
    ensures r.Err? <==> exists v :: v in ds.variables && IsWaqVar(v) && "long_name" !in v.attrs
  {
    var w := WaqVars(ds.variables);
    match FirstMissingLongName(w)
    case Some(name) =>
      assert exists i :: 0 <= i < |w| && "long_name" !in w[i].attrs;
      Err(MissingLongName(name))
    case None =>
      assert forall v :: v in w ==> "long_name" in v.attrs;
      Ok(RenameMap(w, Prefix(ds)))
  }

  /** Only selected variables are renamed, and no two to the same name. */
  lemma RenameWaqVarsKeysAndInjective(ds: Dataset)
    requires RenameWaqVars(ds).Ok?
    ensures forall name :: name in RenameWaqVars(ds).value ==>
      exists v :: v in ds.variables && IsWaqVar(v) && v.name == name
    ensures forall a, b :: a in RenameWaqVars(ds).value && b in RenameWaqVars(ds).value && a != b ==>
      RenameWaqVars(ds).value[a] != RenameWaqVars(ds).value[b]
  {
    var w := WaqVars(ds.variables);
    assert FirstMissingLongName(w).None?;
    RenameMapKeys(w, Prefix(ds));
    RenameMapInjective(w, Prefix(ds));
    forall name | name in RenameMap(w, Prefix(ds))
      ensures exists v :: v in ds.variables && IsWaqVar(v) && v.name == name
    {
      var i :| 0 <= i < |w| && w[i].name == name && FirstOfTarget(w, Prefix(ds), i);
      assert w[i] in w;
    }
  }

  /** Variables outside the selection keep their names. */
  lemma UnselectedKeepName(ds: Dataset, k: nat)
    requires UniqueNames(ds.variables) && k < |ds.variables| && !IsWaqVar(ds.variables[k])
    requires RenameWaqVars(ds).Ok?
    ensures ds.variables[k].name !in RenameWaqVars(ds).value
  {
    RenameWaqVarsKeysAndInjective(ds);
  }

  /** With unique names, the first variable with a given target is renamed to
      it and the later ones keep their names. */
  lemma RenameMapFirstWins(w: seq<Variable>, prefix: string, i: nat)
    requires AllHaveLongName(w) && UniqueNames(w) && i < |w|
    ensures FirstOfTarget(w, prefix, i) ==>
      w[i].name in RenameMap(w, prefix) && RenameMap(w, prefix)[w[i].name] == Target(w[i], prefix)
    ensures !FirstOfTarget(w, prefix, i) ==> w[i].name !in RenameMap(w, prefix)
  {
    var m := RenameMap(w, prefix);
    RenameMapKeys(w, prefix);
    if w[i].name in m {
      var j :| 0 <= j < |w| && w[j].name == w[i].name && m[w[i].name] == Target(w[j], prefix);
      assert j == i;
    }
  }

  /** Every target is used: some variable is renamed to it. */
  lemma {:induction false} RenameMapUsesEveryTarget(w: seq<Variable>, prefix: string, i: nat)
    requires AllHaveLongName(w) && UniqueNames(w) && i < |w|
    ensures exists name :: name in RenameMap(w, prefix) && RenameMap(w, prefix)[name] == Target(w[i], prefix)
    decreases i
  {
    RenameMapFirstWins(w, prefix, i);
    if !FirstOfTarget(w, prefix, i) {
      var k :| 0 <= k < i && Target(w[k], prefix) == Target(w[i], prefix);
      RenameMapUsesEveryTarget(w, prefix, k);
    }
  }

  /** At dataset level: every selected variable's target is some variable's
      new name, and one renamed variable carries its target. */
  lemma EveryWaqTargetUsed(ds: Dataset, k: nat)
    requires UniqueNames(ds.variables) && k < |ds.variables| && IsWaqVar(ds.variables[k])
    requires RenameWaqVars(ds).Ok?
    ensures "long_name" in ds.variables[k].attrs
    ensures exists name ::
      name in RenameWaqVars(ds).value && RenameWaqVars(ds).value[name] == Target(ds.variables[k], Prefix(ds))
  {
    var w := WaqVars(ds.variables);
    WaqVarsUnique(ds.variables);
    assert ds.variables[k] in w;
    var i :| 0 <= i < |w| && w[i] == ds.variables[k];
    assert FirstMissingLongName(w).None?;
    RenameMapUsesEveryTarget(w, Prefix(ds), i);
  }

  /** Which variables of the dataset are renamed: the k-th is selected and no
      earlier selected variable has the same target. */
  predicate FirstWaqWithTarget(vars: seq<Variable>, prefix: string, k: nat)
    requires k < |vars|
  {
    IsWaqVar(vars[k]) && "long_name" in vars[k].attrs &&
    forall k' :: 0 <= k' < k && IsWaqVar(vars[k']) && "long_name" in vars[k'].attrs ==>
      Target(vars[k'], prefix) != Target(vars[k], prefix)
  }

  /** At dataset level, the dictionary keeps the first selected variable of
      each target in the dataset's order: the k-th variable is a key exactly
      when it is selected and no earlier selected variable has its target,
      and it is then mapped to its own target. */
  lemma RenameWaqVarsKeepsFirst(ds: Dataset, k: nat)
    requires UniqueNames(ds.variables) && k < |ds.variables|
    requires RenameWaqVars(ds).Ok?
    ensures ds.variables[k].name in RenameWaqVars(ds).value <==>
      FirstWaqWithTarget(ds.variables, Prefix(ds), k)
    ensures ds.variables[k].name in RenameWaqVars(ds).value ==>
      RenameWaqVars(ds).value[ds.variables[k].name] == Target(ds.variables[k], Prefix(ds))
  {
    var vars, prefix := ds.variables, Prefix(ds);
    var idx, w := WaqIndices(vars), WaqVars(vars);
    assert FirstMissingLongName(w).None?;
    if !IsWaqVar(vars[k]) {
      UnselectedKeepName(ds, k);
    } else {
      var t :| 0 <= t < |idx| && idx[t] == k;
      WaqVarsUnique(vars);
      RenameMapFirstWins(w, prefix, t);
      FirstOfTargetAtPosition(vars, prefix, t);
    }
  }

  /** Being first of its target among the selected variables is being first
      of its target among the selected variables before it in the dataset. */
  lemma FirstOfTargetAtPosition(vars: seq<Variable>, prefix: string, t: nat)
    requires AllHaveLongName(WaqVars(vars)) && t < |WaqIndices(vars)|
    ensures FirstOfTarget(WaqVars(vars), prefix, t) <==>
      FirstWaqWithTarget(vars, prefix, WaqIndices(vars)[t])
  {
    if FirstOfTarget(WaqVars(vars), prefix, t) {
      FirstAmongSelectedIsFirst(vars, prefix, t);
    } else {
      var w := WaqVars(vars);
      var s :| 0 <= s < t && Target(w[s], prefix) == Target(w[t], prefix);
      assert w[s] == vars[WaqIndices(vars)[s]];
    }
  }

  lemma FirstAmongSelectedIsFirst(vars: seq<Variable>, prefix: string, t: nat)
    requires AllHaveLongName(WaqVars(vars)) && t < |WaqIndices(vars)|
    requires FirstOfTarget(WaqVars(vars), prefix, t)
    ensures FirstWaqWithTarget(vars, prefix, WaqIndices(vars)[t])
  {
    var k := WaqIndices(vars)[t];
    forall k' | 0 <= k' < k && IsWaqVar(vars[k']) && "long_name" in vars[k'].attrs
      ensures Target(vars[k'], prefix) != Target(vars[k], prefix)
    {
      EarlierSelectedDiffers(vars, prefix, t, k');
    }
  }

  /** One selected variable before the t-th selected one, when the t-th is
      first of its target, has a different target. */
  lemma EarlierSelectedDiffers(vars: seq<Variable>, prefix: string, t: nat, k': nat)
    requires AllHaveLongName(WaqVars(vars)) && t < |WaqIndices(vars)|
    requires FirstOfTarget(WaqVars(vars), prefix, t)
    requires k' < WaqIndices(vars)[t] && IsWaqVar(vars[k']) && "long_name" in vars[k'].attrs
    ensures Target(vars[k'], prefix) != Target(vars[WaqIndices(vars)[t]], prefix)
  {
    var w := WaqVars(vars);
    var s := EarlierPosition(vars, t, k');
    assert w[s] == vars[k'] && w[t] == vars[WaqIndices(vars)[t]];
    assert Target(w[s], prefix) != Target(w[t], prefix);
  }

  /** A water-quality variable before the t-th selected position is selected
      at an earlier place in the selection. */
  lemma EarlierPosition(vars: seq<Variable>, t: nat, k': nat) returns (s: nat)
    requires t < |WaqIndices(vars)| && k' < WaqIndices(vars)[t] && IsWaqVar(vars[k'])
    ensures s < t && WaqIndices(vars)[s] == k'
  {
    var idx := WaqIndices(vars);
    assert k' in idx;
    s :| 0 <= s < |idx| && idx[s] == k';
  }

  lemma OccursAfterPrefix(a: string, b: string, c: string)
    ensures OccursAt(a + b + c, b, |a|)
  {
    assert (a + b + c)[|a|..|a| + |b|] == b;
  }

  /** The names used by the examples below: which carry the marker. */
  lemma ExampleNames()
    ensures Contains("mesh2d_water_quality_output_24", WaqMarker)
    ensures !Contains("mesh2d_s1", WaqMarker)
    ensures Contains("water_quality_output_1", WaqMarker)
    ensures Contains("water_quality_stat_1", WaqMarker)
  {
    assert "mesh2d_" + WaqMarker == "mesh2d_water_quality_";
    assert "mesh2d_water_quality_output_24" == "mesh2d_water_quality_" + "output_24";
    OccursAfterPrefix("mesh2d_", WaqMarker, "output_24");
    assert "water_quality_output_1" == "" + WaqMarker + "output_1";
    OccursAfterPrefix("", WaqMarker, "output_1");
    assert "water_quality_stat_1" == "" + WaqMarker + "stat_1";
    OccursAfterPrefix("", WaqMarker, "stat_1");
  }

  /** Of the docstring's variable and a water level, only the former is a
      water-quality variable. */
  lemma ExampleSelection(waq: Variable, level: Variable)
    requires waq == Variable("mesh2d_water_quality_output_24", true, map["long_name" := "DOscore"])
    requires level == Variable("mesh2d_s1", true, map["long_name" := "water level"])
    ensures WaqVars([waq, level]) == [waq]
  {
    ExampleNames();
    assert IsWaqVar(waq) && !IsWaqVar(level);
    assert [waq, level][..1] == [waq];
    assert [waq][..0] == [];
    assert WaqVars([waq]) == [waq];
  }

  /** The docstring's example: mesh2d_water_quality_output_24 with long_name
      DOscore in a mesh2d map file becomes mesh2d_DOscore, and a variable
      without the marker is not renamed. */
  lemma RenameWaqVarsExample()
    ensures RenameWaqVars(Dataset([
        Variable("mesh2d_water_quality_output_24", true, map["long_name" := "DOscore"]),
        Variable("mesh2d_s1", true, map["long_name" := "water level"])], Some("mesh2d")))
      == Ok(map["mesh2d_water_quality_output_24" := "mesh2d_DOscore"])
  {
    var waq := Variable("mesh2d_water_quality_output_24", true, map["long_name" := "DOscore"]);
    var level := Variable("mesh2d_s1", true, map["long_name" := "water level"]);
    ExampleSelection(waq, level);
    assert [waq][..0] == [];
    assert FirstMissingLongName([waq]) == None;
    assert FirstOfTarget([waq], "mesh2d_", 0);
    assert "mesh2d_" + "DOscore" == "mesh2d_DOscore";
    assert RenameMap([waq], "mesh2d_") == map[waq.name := "mesh2d_DOscore"];
    var ds := Dataset([waq, level], Some("mesh2d"));
    assert Prefix(ds) == "mesh2d_";
  }

  /** Two variables that both carry the marker are both selected, in order. */
  lemma {:induction false} DuplicateSelection(first: Variable, second: Variable)
    requires IsWaqVar(first) && IsWaqVar(second)
    ensures WaqVars([first, second]) == [first, second]
  {
    AppendSelection([], first);
    assert [] + [first] == [first];
    AppendSelection([first], second);
    PairIsAppend(first, second);
  }

  /** A two-element sequence is the first element followed by the second. */
  lemma PairIsAppend(a: Variable, b: Variable)
    ensures [a] + [b] == [a, b]
  {
  }

  /** The dictionary for two variables with the same target keeps the first. */
  lemma DuplicateRenameMap(first: Variable, second: Variable)
    requires first == Variable("water_quality_output_1", true, map["long_name" := "DOscore"])
    requires second == Variable("water_quality_stat_1", true, map["long_name" := "DOscore"])
    ensures RenameMap([first, second], "") == map[first.name := "DOscore"]
  {
    assert [first, second][..1] == [first];
    assert [first][..0] == [];
    assert Target([first, second][0], "") == Target([first, second][1], "");
    assert RenameMap([first, second], "") == RenameMap([first], "");
    assert FirstOfTarget([first], "", 0);
    assert Target(first, "") == "DOscore";
    assert RenameMap([first], "") == RenameMap([], "")[first.name := Target(first, "")];
  }

  /** Two water-quality variables with the same long_name: only the first is
      renamed. */
  lemma RenameWaqVarsDuplicateExample()
    ensures RenameWaqVars(Dataset([
        Variable("water_quality_output_1", true, map["long_name" := "DOscore"]),
        Variable("water_quality_stat_1", true, map["long_name" := "DOscore"])], None))
      == Ok(map["water_quality_output_1" := "DOscore"])
  {
    var first := Variable("water_quality_output_1", true, map["long_name" := "DOscore"]);
    var second := Variable("water_quality_stat_1", true, map["long_name" := "DOscore"]);
    ExampleNames();
    DuplicateSelection(first, second);
    DuplicateRenameMap(first, second);
    var ds := Dataset([first, second], None);
    assert AllHaveLongName(WaqVars(ds.variables));
    assert Prefix(ds) == "";
    assert RenameWaqVars(ds) == Ok(RenameMap([first, second], ""));
  }
}
