/**
 * `Ont::WellFactory`: build one well of an ONT plate and a request factory
 * per sample, validate them, and serialise them for the bulk inserter.
 */
module OntWellFactory {
  import opened Wrappers
  import opened Sequences
  import opened Errors

  type TagId = int

  /** Tag ids keyed by oligo, for one tag set. */
  type TagIdsByOligo = map<string, TagId>

  /** A `::Plate` as the factories build it: only its barcode is given. */
  datatype Plate = Plate(barcode: Option<string>)

  /** One sample's attributes; the well factory passes them on untouched. */
  datatype SampleAttributes = SampleAttributes(fields: map<string, string>)

  /** `:well_attributes`: the well's `:position` and, optionally, its `:samples`. */
  datatype WellAttributes = WellAttributes(position: Option<string>, samples: Option<seq<SampleAttributes>>)

  /** The tag sets a `TagSetService` would load, by name. */
  datatype TagSetService = TagSetService(tagSets: map<string, TagIdsByOligo>)

  /** The attributes hash of `WellFactory.new`; `None` is a missing key. */
  datatype WellFactoryInput = WellFactoryInput(
    plate: Option<Plate>,
    wellAttributes: Option<WellAttributes>,
    tagSetService: Option<TagSetService>)

  /** A `::Well`: its position and the plate it belongs to. */
  datatype Well = Well(position: Option<string>, plate: Option<Plate>)

  /** An `Ont::RequestFactory`: one sample and the tag ids it may look its oligo up in. */
  datatype RequestFactory = RequestFactory(sample: SampleAttributes, tagIdsByOligo: Option<TagIdsByOligo>)

  /** The factory after `initialize`: `well` is `nil` when it returned early. */
  datatype WellFactory = WellFactory(well: Option<Well>, requestFactories: seq<RequestFactory>)

  /** The validations the factory defers to: those of `::Well` and of `Ont::RequestFactory`. */
  datatype Validators = Validators(
    wellErrors: Well -> ErrorLog,
    requestFactoryErrors: RequestFactory -> ErrorLog)

  /** What `bulk_insert_serialiser.well_data(well, request_data)` is given. */
  datatype WellData<D> = WellData(well: Option<Well>, requestData: seq<D>)

  const WellNil := Error("well", "cannot be nil")

  /** `TagSetService#load_tag_set` then `loaded_tag_sets[name]`: `nil` for an unknown set. */
  function LoadedTagSet(service: TagSetService, name: string): (tags: Option<TagIdsByOligo>)
    ensures tags.Some? <==> name in service.tagSets
    ensures tags.Some? ==> tags.value == service.tagSets[name]
  {
    if name in service.tagSets then Some(service.tagSets[name]) else None
  }

  /** One request factory per sample, in order, all sharing the loaded tag set. */
  function BuildRequestFactories(samples: seq<SampleAttributes>, tags: Option<TagIdsByOligo>): (rfs: seq<RequestFactory>)
    ensures |rfs| == |samples|
    ensures forall i :: 0 <= i < |samples| ==> rfs[i] == RequestFactory(samples[i], tags)
  {
    if |samples| == 0 then []
    else [RequestFactory(samples[0], tags)] + BuildRequestFactories(samples[1..], tags)
  }

  /**
   * `WellFactory.new` with the tag set named `tagSetName` (a pipeline
   * constant): nothing is built unless both `:well_attributes` and
   * `:tag_set_service` are given.
   */
  function NewWellFactory(input: WellFactoryInput, tagSetName: string): (wf: WellFactory)
    ensures wf.well.Some? <==> input.wellAttributes.Some? && input.tagSetService.Some?
    ensures wf.well.None? ==> wf.requestFactories == []
    ensures wf.well.Some? ==> wf.well.value == Well(input.wellAttributes.value.position, input.plate)
    ensures wf.well.Some? && input.wellAttributes.value.samples.None? ==> wf.requestFactories == []
    ensures wf.well.Some? && input.wellAttributes.value.samples.Some? ==>
              var samples := input.wellAttributes.value.samples.value;
              && |wf.requestFactories| == |samples|
              && forall i :: 0 <= i < |samples| ==>
                   && wf.requestFactories[i].sample == samples[i]
                   && wf.requestFactories[i].tagIdsByOligo == LoadedTagSet(input.tagSetService.value, tagSetName)
  {
    if input.wellAttributes.None? || input.tagSetService.None? then
      WellFactory(None, [])
    else
      var attributes := input.wellAttributes.value;
      var well := Well(attributes.position, input.plate);
      match attributes.samples
      case None => WellFactory(Some(well), [])
      case Some(samples) =>
        var tags := LoadedTagSet(input.tagSetService.value, tagSetName);
        WellFactory(Some(well), BuildRequestFactories(samples, tags))
  }

  /** `check_well`: a missing well is the one error; otherwise the well's own errors. */
  function CheckWell(well: Option<Well>, v: Validators): (errors: ErrorLog)
    ensures well.None? ==> errors == [WellNil]
    ensures well.Some? ==> errors == v.wellErrors(well.value)
  {
    match well
    case None => [WellNil]
    case Some(w) => Absorb([], v.wellErrors(w))
  }

  function RequestFactoryErrorLogs(rfs: seq<RequestFactory>, v: Validators): (logs: seq<ErrorLog>)
    ensures |logs| == |rfs|
    ensures forall i :: 0 <= i < |rfs| ==> logs[i] == v.requestFactoryErrors(rfs[i])
  {
    seq(|rfs|, i requires 0 <= i < |rfs| => v.requestFactoryErrors(rfs[i]))
  }

  /** `check_request_factories`: the errors of each invalid request factory, in order. */
  function CheckRequestFactories(rfs: seq<RequestFactory>, v: Validators): (errors: ErrorLog)
    ensures errors == Flatten(RequestFactoryErrorLogs(rfs, v))
    ensures Valid(errors) <==> forall i :: 0 <= i < |rfs| ==> Valid(v.requestFactoryErrors(rfs[i]))
  {
    AbsorbInvalidIsFlatten(RequestFactoryErrorLogs(rfs, v));
    AbsorbInvalid(RequestFactoryErrorLogs(rfs, v))
  }

  /** The factory's errors: those of `check_well`, then those of `check_request_factories`. */
  function WellFactoryErrors(wf: WellFactory, v: Validators): (errors: ErrorLog)
    ensures wf.well.None? ==> |errors| >= 1 && errors[0] == WellNil
    ensures Valid(errors) <==>
              && wf.well.Some?
              && Valid(v.wellErrors(wf.well.value))
              && forall i :: 0 <= i < |wf.requestFactories| ==> Valid(v.requestFactoryErrors(wf.requestFactories[i]))
  {
    CheckWell(wf.well, v) + CheckRequestFactories(wf.requestFactories, v)
  }

  /** `check_well` as Rails 6.0 runs it: the well's entries in `errors.each` order. */
  function CheckWellInEachOrder(well: Option<Well>, v: Validators): (errors: ErrorLog)
    ensures EachOrder(errors) == EachOrder(CheckWell(well, v))
  {
    match well
    case None => [WellNil]
    case Some(w) =>
      var wellErrors := v.wellErrors(w);
      EachOrderIdempotent(wellErrors);
      assert [] + EachOrder(wellErrors) == EachOrder(wellErrors);
      Absorb([], EachOrder(wellErrors))
  }

  /**
   * The factory's errors as Rails 6.0 collects them: the well's and each
   * request factory's entries are added in the order their `errors.each`
   * yields them. The factory then enumerates exactly as `WellFactoryErrors`.
   */
  function WellFactoryErrorsInEachOrder(wf: WellFactory, v: Validators): (errors: ErrorLog)
    ensures EachOrder(errors) == EachOrder(WellFactoryErrors(wf, v))
  {
    var checkWell := CheckWellInEachOrder(wf.well, v);
    var logs := RequestFactoryErrorLogs(wf.requestFactories, v);
    var checkRequestFactories := AbsorbInvalidInEachOrder(logs);
    AbsorbInvalidIsFlatten(logs);
    EachOrderAppendCongruent(checkWell, CheckWell(wf.well, v), checkRequestFactories, CheckRequestFactories(wf.requestFactories, v));
    checkWell + checkRequestFactories
  }

  /** A factory that returned early has exactly one error, whatever the validators say. */
  lemma UnbuiltWellFactoryErrors(input: WellFactoryInput, tagSetName: string, v: Validators)
    requires input.wellAttributes.None? || input.tagSetService.None?
    ensures WellFactoryErrors(NewWellFactory(input, tagSetName), v) == [WellNil]
  {
  }

  /** Validation is skipped only when the caller passes `validate: false`. */
  predicate SkipsValidation(validate: Option<bool>) {
    validate == Some(false)
  }

  function SerialiseRequests<D>(rfs: seq<RequestFactory>, serialiseRequest: RequestFactory -> D): (data: seq<D>)
    ensures |data| == |rfs|
    ensures forall i :: 0 <= i < |rfs| ==> data[i] == serialiseRequest(rfs[i])
  {
    seq(|rfs|, i requires 0 <= i < |rfs| => serialiseRequest(rfs[i]))
  }

  /**
   * `bulk_insert_serialise`: `false` (here `None`) when validation is on and
   * fails; otherwise the well with one entry per request factory, each
   * serialised by `serialiseRequest` with validation off.
   */
  function BulkInsertSerialise<D>(wf: WellFactory, validate: Option<bool>, v: Validators,
                                  serialiseRequest: RequestFactory -> D): (r: Option<WellData<D>>)
    ensures r.None? <==> !SkipsValidation(validate) && !Valid(WellFactoryErrors(wf, v))
    ensures r.Some? ==>
              && r.value.well == wf.well
              && |r.value.requestData| == |wf.requestFactories|
              && forall i :: 0 <= i < |wf.requestFactories| ==>
                   r.value.requestData[i] == serialiseRequest(wf.requestFactories[i])
  {
    if !(SkipsValidation(validate) || Valid(WellFactoryErrors(wf, v))) then None
    else Some(WellData(wf.well, SerialiseRequests(wf.requestFactories, serialiseRequest)))
  }
}
