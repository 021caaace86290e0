/**
 * `Ont::PlateFactory`: build a plate and one well factory per well, validate
 * the whole tree, and serialise it for the bulk inserter.
 */
module OntPlateFactory {
  import opened Wrappers
  import opened Sequences
  import opened Errors
  import opened OntWellFactory

  /** The attributes hash: `:barcode`, `:wells`, and whatever else the caller sent. */
  datatype PlateAttributes = PlateAttributes(
    barcode: Option<string>,
    wells: Option<seq<WellAttributes>>,
    others: map<string, string>)

  datatype PlateFactory = PlateFactory(plate: Plate, wellFactories: seq<WellFactory>)

  /** The validations the plate factory defers to: `::Plate`'s and, below it, the well factory's. */
  datatype PlateValidators = PlateValidators(plateErrors: Plate -> ErrorLog, wells: Validators)

  /** What `plate_bulk_inserter.plate_data(plate, well_data)` is given. */
  datatype PlateData<D> = PlateData(plate: Plate, wellData: seq<WellData<D>>)

  const WellsEmpty := Error("wells", "cannot be empty")

  /**
   * `build_requests`: a well factory per well attribute entry, given the plate
   * and the entry but, as the source is written, no `:tag_set_service`.
   */
  function BuildWellFactories(plate: Plate, wells: seq<WellAttributes>, tagSetName: string): (wfs: seq<WellFactory>)
    ensures |wfs| == |wells|
    ensures forall i :: 0 <= i < |wells| ==>
              wfs[i] == NewWellFactory(WellFactoryInput(Some(plate), Some(wells[i]), None), tagSetName)
  {
    if |wells| == 0 then []
    else [NewWellFactory(WellFactoryInput(Some(plate), Some(wells[0]), None), tagSetName)]
         + BuildWellFactories(plate, wells[1..], tagSetName)
  }

  /** `PlateFactory.new`: only `:barcode` and `:wells` are read; missing wells mean none. */
  function NewPlateFactory(attributes: PlateAttributes, tagSetName: string): (pf: PlateFactory)
    ensures pf.plate == Plate(attributes.barcode)
    ensures |pf.wellFactories| == |attributes.wells.GetOr([])|
  {
    var plate := Plate(attributes.barcode);
    PlateFactory(plate, BuildWellFactories(plate, attributes.wells.GetOr([]), tagSetName))
  }

  /** Attributes other than `:barcode` and `:wells` make no difference to the factory. */
  lemma NewPlateFactoryReadsOnlyBarcodeAndWells(a: PlateAttributes, b: PlateAttributes, tagSetName: string)
    requires a.barcode == b.barcode && a.wells == b.wells
    ensures NewPlateFactory(a, tagSetName) == NewPlateFactory(b, tagSetName)
  {
  }

  /** `check_plate`: the plate's own errors. */
  function CheckPlate(plate: Plate, v: PlateValidators): (errors: ErrorLog)
    ensures errors == v.plateErrors(plate)
  {
    Absorb([], v.plateErrors(plate))
  }

  function WellFactoryErrorLogs(wfs: seq<WellFactory>, v: Validators): (logs: seq<ErrorLog>)
    ensures |logs| == |wfs|
    ensures forall i :: 0 <= i < |wfs| ==> logs[i] == WellFactoryErrors(wfs[i], v)
  {
    seq(|wfs|, i requires 0 <= i < |wfs| => WellFactoryErrors(wfs[i], v))
  }

  /** `check_well_factories`: complain of an empty list, then collect each invalid factory's errors. */
  function CheckWellFactories(wfs: seq<WellFactory>, v: Validators): (errors: ErrorLog)
    ensures |wfs| == 0 ==> errors == [WellsEmpty]
    ensures |wfs| > 0 ==> errors == Flatten(WellFactoryErrorLogs(wfs, v))
    ensures Valid(errors) <==> |wfs| > 0 && forall i :: 0 <= i < |wfs| ==> Valid(WellFactoryErrors(wfs[i], v))
  {
    AbsorbInvalidIsFlatten(WellFactoryErrorLogs(wfs, v));
    (if |wfs| == 0 then [WellsEmpty] else []) + AbsorbInvalid(WellFactoryErrorLogs(wfs, v))
  }

  /** The plate factory's errors: the plate's, then those of its well factories. */
  function PlateFactoryErrors(pf: PlateFactory, v: PlateValidators): (errors: ErrorLog)
    ensures Valid(errors) <==>
              && Valid(v.plateErrors(pf.plate))
              && |pf.wellFactories| > 0
              && forall i :: 0 <= i < |pf.wellFactories| ==> Valid(WellFactoryErrors(pf.wellFactories[i], v.wells))
  {
    CheckPlate(pf.plate, v) + CheckWellFactories(pf.wellFactories, v.wells)
  }

  /** `check_plate` as Rails 6.0 runs it: the plate's entries in `errors.each` order. */
  function CheckPlateInEachOrder(plate: Plate, v: PlateValidators): (errors: ErrorLog)
    ensures EachOrder(errors) == EachOrder(CheckPlate(plate, v))
  {
    var plateErrors := v.plateErrors(plate);
    EachOrderIdempotent(plateErrors);
    assert [] + EachOrder(plateErrors) == EachOrder(plateErrors);
    Absorb([], EachOrder(plateErrors))
  }

  /**
   * `check_well_factories` as Rails 6.0 runs it, given what each well
   * factory collected: each entry is added in the order the well factory's
   * `errors.each` yields it.
   */
  function CheckWellFactoriesInEachOrder(wfs: seq<WellFactory>, v: Validators): (errors: ErrorLog)
    ensures EachOrder(errors) == EachOrder(CheckWellFactories(wfs, v))
  {
    var collected := seq(|wfs|, i requires 0 <= i < |wfs| => WellFactoryErrorsInEachOrder(wfs[i], v));
    var logs := WellFactoryErrorLogs(wfs, v);
    var empty := if |wfs| == 0 then [WellsEmpty] else [];
    AbsorbInvalidCongruent(collected, logs);
    AbsorbInvalidIsFlatten(logs);
    EachOrderAppendCongruent(empty, empty, AbsorbInvalidInEachOrder(collected), AbsorbInvalid(logs));
    empty + AbsorbInvalidInEachOrder(collected)
  }

  /**
   * The plate factory's errors as Rails 6.0 collects them, children's
   * entries in `errors.each` order at every level. The plate factory then
   * enumerates exactly as `PlateFactoryErrors`.
   */
  function PlateFactoryErrorsInEachOrder(pf: PlateFactory, v: PlateValidators): (errors: ErrorLog)
    ensures EachOrder(errors) == EachOrder(PlateFactoryErrors(pf, v))
  {
    var checkPlate := CheckPlateInEachOrder(pf.plate, v);
    var checkWellFactories := CheckWellFactoriesInEachOrder(pf.wellFactories, v.wells);
    EachOrderAppendCongruent(checkPlate, CheckPlate(pf.plate, v),
                             checkWellFactories, CheckWellFactories(pf.wellFactories, v.wells));
    checkPlate + checkWellFactories
  }

  /**
   * Because no tag set service reaches the well factories, every one of them
   * is left without a well, and each reports exactly that.
   */
  lemma BuiltWellFactoriesHaveNoWell(attributes: PlateAttributes, tagSetName: string, v: Validators)
    ensures var pf := NewPlateFactory(attributes, tagSetName);
            forall i :: 0 <= i < |pf.wellFactories| ==>
              && pf.wellFactories[i].well.None?
              && pf.wellFactories[i].requestFactories == []
              && WellFactoryErrors(pf.wellFactories[i], v) == [WellNil]
  {
  }

  /**
   * The errors of a plate factory as built: the plate's errors, then either
   * the empty-list complaint or one nil-well error per well.
   */
  lemma {:induction false} BuiltPlateFactoryErrors(attributes: PlateAttributes, tagSetName: string, v: PlateValidators)
    ensures var n := |attributes.wells.GetOr([])|;
            PlateFactoryErrors(NewPlateFactory(attributes, tagSetName), v)
            == v.plateErrors(Plate(attributes.barcode)) + (if n == 0 then [WellsEmpty] else Repeat(WellNil, n))
  {
    var pf := NewPlateFactory(attributes, tagSetName);
    var n := |pf.wellFactories|;
    BuiltWellFactoriesHaveNoWell(attributes, tagSetName, v.wells);
    if n > 0 {
      var logs := WellFactoryErrorLogs(pf.wellFactories, v.wells);
      assert forall i :: 0 <= i < n ==> logs[i] == [WellNil];
      FlattenOfSingletons(logs, WellNil);
    }
  }

  /** Flattening `n` one-entry logs of the same error gives `n` copies of it. */
  lemma {:induction false} FlattenOfSingletons(logs: seq<ErrorLog>, e: Error)
    requires forall i :: 0 <= i < |logs| ==> logs[i] == [e]
    ensures Flatten(logs) == Repeat(e, |logs|)
  {
    if |logs| > 0 {
      FlattenOfSingletons(logs[1..], e);
      assert [e] + Repeat(e, |logs| - 1) == Repeat(e, |logs|);
    }
  }

  /** Consequently a plate factory built from attributes is never valid. */
  lemma BuiltPlateFactoryNeverValid(attributes: PlateAttributes, tagSetName: string, v: PlateValidators)
    ensures !Valid(PlateFactoryErrors(NewPlateFactory(attributes, tagSetName), v))
  {
  }

  function SerialiseWells<D>(wfs: seq<WellFactory>, v: Validators, serialiseRequest: RequestFactory -> D): (data: seq<WellData<D>>)
    ensures |data| == |wfs|
    ensures forall i :: 0 <= i < |wfs| ==>
              && data[i].well == wfs[i].well
              && |data[i].requestData| == |wfs[i].requestFactories|
              && BulkInsertSerialise(wfs[i], Some(false), v, serialiseRequest) == Some(data[i])
  {
    seq(|wfs|, i requires 0 <= i < |wfs| => BulkInsertSerialise(wfs[i], Some(false), v, serialiseRequest).value)
  }

  /**
   * `bulk_insert_serialise`: `false` (here `None`) when validation is on and
   * fails; otherwise the plate with one entry per well factory, in order,
   * each serialised with validation off.
   */
  function PlateBulkInsertSerialise<D>(pf: PlateFactory, validate: Option<bool>, v: PlateValidators,
                                       serialiseRequest: RequestFactory -> D): (r: Option<PlateData<D>>)
    ensures r.None? <==> !SkipsValidation(validate) && !Valid(PlateFactoryErrors(pf, v))
    ensures r.Some? ==>
              && r.value.plate == pf.plate
              && |r.value.wellData| == |pf.wellFactories|
              && forall i :: 0 <= i < |pf.wellFactories| ==>
                   BulkInsertSerialise(pf.wellFactories[i], Some(false), v.wells, serialiseRequest)
                   == Some(r.value.wellData[i])
  {
    if !(SkipsValidation(validate) || Valid(PlateFactoryErrors(pf, v))) then None
    else Some(PlateData(pf.plate, SerialiseWells(pf.wellFactories, v.wells, serialiseRequest)))
  }

  /** With validation on, a plate factory built from attributes never serialises. */
  lemma BuiltPlateFactoryNeverSerialisesValidated<D>(attributes: PlateAttributes, tagSetName: string,
                                                     v: PlateValidators, serialiseRequest: RequestFactory -> D)
    ensures PlateBulkInsertSerialise(NewPlateFactory(attributes, tagSetName), None, v, serialiseRequest).None?
  {
  }
}
