/** The vertical-reference bookkeeping of the `DEM` class in `xdem/dem.py`: the product table,
    the fields `vref`, `vref_grid` and `ccrs`, and the checks `set_vref` and `to_vref` make
    before any projection library is involved. */
module Dem {
  import opened Wrappers

  /** A Python value as these methods look at it: `None`, a string, or anything else. */
  datatype PyVal = PyNone | PyStr(s: string) | PyOther

  /** The ways the modelled members raise `ValueError`. */
  datatype DemError =
    | MultipleBands   // "DEM rasters should be composed of only one band only"
    | BadVrefName     // "Vertical reference name must be either ..."
    | BadVrefGrid     // "Vertical reference grid name must be PROJ DATA file name ..."
    | NoVref          // "The current DEM has not vertical reference ..."

  const Egm08Grid: string := "us_nga_egm08_25.tif"
  const Egm96Grid: string := "us_nga_egm96_15.tif"
  const UnknownName: string := "Unknown vertical reference name"

  // ---------------------------------------------------------------- the product table

  /** `parse_vref_from_product`: the vertical reference a product is distributed in,
      `None` for any other product name (or a product that is not a string). */
  function ProductVref(product: PyVal): (r: Option<string>)
    ensures r.Some? ==> product.PyStr? && r.value in {"WGS84", "EGM96", "EGM08"}
  {
    match product
    case PyStr(name) =>
      if name in ["ArcticDEM/REMA", "TDM1", "NASADEM-HGTS"] then Some("WGS84")
      else if name in ["AW3D30", "SRTMv4.1", "SRTMGL1", "ASTGTM2", "NASADEM-HGT"] then Some("EGM96")
      else if name in ["COPDEM"] then Some("EGM08")
      else None
    case _ => None
  }

  /** The same table written as a map from product name to vertical reference. */
  const ProductTable: map<string, string> := map[
    "ArcticDEM/REMA" := "WGS84", "TDM1" := "WGS84", "NASADEM-HGTS" := "WGS84",
    "AW3D30" := "EGM96", "SRTMv4.1" := "EGM96", "SRTMGL1" := "EGM96", "ASTGTM2" := "EGM96",
    "NASADEM-HGT" := "EGM96",
    "COPDEM" := "EGM08"]

  /** The product lookup is exactly the map: its nine names and nothing else. */
  lemma ProductVrefIsTable(name: string)
    ensures ProductVref(PyStr(name)) == if name in ProductTable then Some(ProductTable[name]) else None
  {
  }

  // ---------------------------------------------------------------- the state transitions

  /** The pair of fields `set_vref` and `to_vref` read and write. */
  datatype VrefState = VrefState(vref: PyVal, grid: PyVal)

  /** `vref` after `__parse_vref_from_fn`: the product's reference fills an unset `vref`;
      a value the caller supplied is kept. */
  function VrefFromProduct(product: PyVal, vref: PyVal): (r: PyVal)
    ensures r == vref || (vref == PyNone && r.PyStr? && ProductVref(product) == Some(r.s))
    ensures vref == PyNone && ProductVref(product).Some? ==> r != PyNone
  {
    if product != PyNone && ProductVref(product).Some? && vref == PyNone then PyStr(ProductVref(product).value)
    else vref
  }

  /** What a call of `set_vref` leaves behind, and whether it raised. */
  datatype SetOutcome = SetOutcome(state: VrefState, raised: bool)

  /** `set_vref(vref_name, vref_grid)` without `compute_ccrs`:
      - a string name: 'WGS84' first writes (WGS84, None); then 'EGM08' or 'EGM96' write the
        name and its geoid grid, and every other name, 'WGS84' included, raises;
      - a name that is not a string: a string grid is stored with an unknown-name `vref`,
        anything else raises with the state untouched. */
  function AfterSetVref(st: VrefState, name: PyVal, grid: PyVal): (o: SetOutcome)
    ensures !o.raised <==> (name == PyStr("EGM08") || name == PyStr("EGM96") || (!name.PyStr? && grid.PyStr?))
    ensures !o.raised ==> o.state.vref.PyStr? && o.state.grid.PyStr?
    ensures o.raised ==> o.state == st || name == PyStr("WGS84")
  {
    if name.PyStr? then
      var st1 := if name.s == "WGS84" then VrefState(PyStr("WGS84"), PyNone) else st;
      if name.s == "EGM08" then SetOutcome(VrefState(PyStr("EGM08"), PyStr(Egm08Grid)), false)
      else if name.s == "EGM96" then SetOutcome(VrefState(PyStr("EGM96"), PyStr(Egm96Grid)), false)
      else SetOutcome(st1, true)
    else if !grid.PyStr? then SetOutcome(st, true)
    else SetOutcome(VrefState(PyStr(UnknownName), grid), false)
  }

  /** The two geoids: name and grid are set whatever the previous state, and a grid argument
      given beside the name is ignored. */
  lemma SetVrefGeoids(st: VrefState, grid: PyVal)
    ensures AfterSetVref(st, PyStr("EGM08"), grid) == SetOutcome(VrefState(PyStr("EGM08"), PyStr(Egm08Grid)), false)
    ensures AfterSetVref(st, PyStr("EGM96"), grid) == SetOutcome(VrefState(PyStr("EGM96"), PyStr(Egm96Grid)), false)
  {
  }

  /** 'WGS84' sets the state and still raises; any other unknown string raises and changes nothing. */
  lemma SetVrefStringNames(st: VrefState, name: string, grid: PyVal)
    requires name != "EGM08" && name != "EGM96"
    ensures AfterSetVref(st, PyStr(name), grid).raised
    ensures AfterSetVref(st, PyStr(name), grid).state ==
      if name == "WGS84" then VrefState(PyStr("WGS84"), PyNone) else st
  {
  }

  /** With no string name, only a string grid is accepted, under the unknown-name label. */
  lemma SetVrefGridOnly(st: VrefState, name: PyVal, grid: PyVal)
    requires !name.PyStr?
    ensures grid.PyStr? ==> AfterSetVref(st, name, grid) == SetOutcome(VrefState(PyStr(UnknownName), grid), false)
    ensures !grid.PyStr? ==> AfterSetVref(st, name, grid) == SetOutcome(st, true)
  {
  }

  /** Calling `set_vref` again with the same arguments changes nothing more. */
  lemma SetVrefIdempotent(st: VrefState, name: PyVal, grid: PyVal)
    ensures var o := AfterSetVref(st, name, grid);
      AfterSetVref(o.state, name, grid) == o
  {
  }

  /** The first lines of `to_vref`: no reference at all raises; a string `vref` without a grid
      is passed back through `set_vref` to fill in the grid, which raises unless it names one of
      the two geoids; a grid that is already set, or a `vref` that is neither unset nor a
      string, passes with the state kept. */
  function ToVrefPrecheck(st: VrefState): (o: SetOutcome)
    ensures o.raised <==>
      st.grid == PyNone
      && (st.vref == PyNone || (st.vref.PyStr? && st.vref != PyStr("EGM08") && st.vref != PyStr("EGM96")))
    ensures st.vref == PyNone && st.grid == PyNone ==> o == SetOutcome(st, true)
    ensures st.grid != PyNone || !(st.vref == PyNone || st.vref.PyStr?) ==> o == SetOutcome(st, false)
    ensures !o.raised ==> o.state.vref == st.vref
    ensures !o.raised && st.vref.PyStr? ==> o.state.grid != PyNone
  {
    if st.vref == PyNone && st.grid == PyNone then SetOutcome(st, true)
    else if st.vref.PyStr? && st.grid == PyNone then AfterSetVref(st, st.vref, PyNone)
    else SetOutcome(st, false)
  }

  /** A DEM whose reference is the WGS84 ellipsoid without a grid, which is what reading the
      product name of an ellipsoidal product gives, cannot be converted: the precheck passes
      'WGS84' back to `set_vref`, which raises. */
  lemma EllipsoidCannotConvert(product: PyVal)
    requires ProductVref(product) == Some("WGS84")
    ensures ToVrefPrecheck(VrefState(VrefFromProduct(product, PyNone), PyNone)).raised
  {
  }

  // ---------------------------------------------------------------- the class

  class DEM {
    /** Read from the file by the raster base class. */
    const nbands: nat
    const product: PyVal
    var vref: PyVal
    var vrefGrid: PyVal
    var ccrs: PyVal

    function State(): VrefState
      reads this
    {
      VrefState(vref, vrefGrid)
    }

    /** Field initialisation: the caller's values are stored as given. */
    constructor (nbands: nat, product: PyVal, vref: PyVal, vrefGrid: PyVal, ccrs: PyVal)
      ensures this.nbands == nbands && this.product == product
      ensures this.vref == vref && this.vrefGrid == vrefGrid && this.ccrs == ccrs
    {
      this.nbands := nbands;
      this.product := product;
      this.vref := vref;
      this.vrefGrid := vrefGrid;
      this.ccrs := ccrs;
    }

    /** `DEM.__init__` after the raster is read: more than one band raises; otherwise the
        caller's values are stored first and then, if asked, the product name fills `vref`. */
    static method Open(nbands: nat, product: PyVal, vref: PyVal, vrefGrid: PyVal, ccrs: PyVal,
                       readVrefFromProduct: bool) returns (r: Result<DEM, DemError>)
      ensures r.Err? <==> nbands > 1
      ensures r.Err? ==> r.error == MultipleBands
      ensures r.Ok? ==> fresh(r.value) && r.value.nbands == nbands && r.value.product == product
      ensures r.Ok? ==> r.value.vref == (if readVrefFromProduct then VrefFromProduct(product, vref) else vref)
      ensures r.Ok? ==> r.value.vrefGrid == vrefGrid && r.value.ccrs == ccrs
    {
      if nbands > 1 {
        return Err(MultipleBands);
      }
      var dem := new DEM(nbands, product, vref, vrefGrid, ccrs);
      if readVrefFromProduct {
        dem.ParseVrefFromFn();
      }
      return Ok(dem);
    }

    /** `__parse_vref_from_fn`: only `vref` may change, and only from unset. */
    method ParseVrefFromFn()
      modifies this`vref
      ensures vref == VrefFromProduct(product, old(vref))
    {
      if product != PyNone {
        var fromProduct := ProductVref(product);
        if fromProduct.Some? && vref == PyNone {
          vref := PyStr(fromProduct.value);
        }
      }
    }

    /** `set_vref` without `compute_ccrs`. */
    method SetVref(name: PyVal, grid: PyVal) returns (r: Result<(), DemError>)
      modifies this`vref, this`vrefGrid
      ensures State() == AfterSetVref(old(State()), name, grid).state
      ensures r.Err? <==> AfterSetVref(old(State()), name, grid).raised
    {
      if name.PyStr? {
        if name.s == "WGS84" {
          vrefGrid := PyNone;
          vref := PyStr("WGS84");
        }
        if name.s == "EGM08" {
          vrefGrid := PyStr(Egm08Grid);
          vref := PyStr("EGM08");
        } else if name.s == "EGM96" {
          vrefGrid := PyStr(Egm96Grid);
          vref := PyStr("EGM96");
        } else {
          return Err(BadVrefName);
        }
      } else if !grid.PyStr? {
        return Err(BadVrefGrid);
      } else {
        vref := PyStr(UnknownName);
        vrefGrid := grid;
      }
      return Ok(());
    }

    /** The checks at the start of `to_vref`, before the projection library takes over. */
    method ToVrefPrepare() returns (r: Result<(), DemError>)
      modifies this`vref, this`vrefGrid
      ensures State() == ToVrefPrecheck(old(State())).state
      ensures r.Err? <==> ToVrefPrecheck(old(State())).raised
    {
      if vref == PyNone && vrefGrid == PyNone {
        return Err(NoVref);
      } else if vref.PyStr? && vrefGrid == PyNone {
        r := SetVref(vref, PyNone);
        return;
      }
      return Ok(());
    }
  }
}
