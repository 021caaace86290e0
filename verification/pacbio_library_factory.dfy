/**
 * `Pacbio::LibraryFactory` and its nested `RequestLibraries`: build one
 * library and its request libraries from the submitted attributes, check the
 * cross-request rules, and save everything only when all of it is valid.
 */
module PacbioLibraryFactory {
  import opened Wrappers
  import opened Sequences
  import opened Errors

  type RequestId = int
  type TagId = int

  /** The `:tag` entry of a request's attributes; its `:id` may be missing. */
  datatype TagAttributes = TagAttributes(id: Option<TagId>)

  /** One element of `:requests`: the request's `:id` and an optional `:tag`. */
  datatype RequestAttributes = RequestAttributes(id: RequestId, tag: Option<TagAttributes>)

  /** A value in the library attributes hash: plain data, or the `:requests` list. */
  datatype AttributeValue = Text(text: string) | Requests(requests: seq<RequestAttributes>)

  type LibraryAttributes = map<string, AttributeValue>

  const RequestsKey := "requests"

  /** A `Pacbio::Library` as built from its attributes. */
  datatype Library = Library(attributes: LibraryAttributes)

  /** A `Pacbio::RequestLibrary`: which request, and which tag if any. */
  datatype RequestLibrary = RequestLibrary(requestId: RequestId, tagId: Option<TagId>)

  /** The factory after `initialize`: the library and its request libraries. */
  datatype Factory = Factory(library: Library, requestLibraries: seq<RequestLibrary>)

  /**
   * What the factory consults but does not define: the library's own
   * validations, and each request's cost code as `Pacbio::Request.find`
   * would return it.
   */
  datatype Environment = Environment(
    libraryErrors: Library -> ErrorLog,
    costCodeOf: RequestId -> Option<string>)

  const TagMissing := Error("tag", "must be present")
  const TagReused := Error("tag", "is used more than once")
  const CostCodeMissing := Error("cost code", "must be present")
  const RequestReused := Error("request", "is used more than once")

  /** `request_attributes[:tag].try(:[], :id)`. */
  function TagIdOf(attributes: RequestAttributes): (t: Option<TagId>)
    ensures t.Some? <==> attributes.tag.Some? && attributes.tag.value.id.Some?
  {
    match attributes.tag
    case None => None
    case Some(tag) => tag.id
  }

  /**
   * `create_library`: a library from every attribute except `:requests`.
   * `Pacbio::Library.new` raises `ActiveModel::UnknownAttributeError` when
   * any other key is not one of the library's attributes, `columns`.
   */
  function CreateLibrary(attributes: LibraryAttributes, columns: set<string>): (r: Result<Library>)
    ensures r.Success? <==> forall k :: k in attributes && k != RequestsKey ==> k in columns
    ensures r.Failure? ==> r.exception == UnknownAttributeError
    ensures r.Success? ==> RequestsKey !in r.value.attributes
    ensures r.Success? ==> forall k :: k in attributes && k != RequestsKey ==>
              k in r.value.attributes && r.value.attributes[k] == attributes[k]
    ensures r.Success? ==> forall k :: k in r.value.attributes ==> k in attributes
  {
    if forall k :: k in attributes && k != RequestsKey ==> k in columns then
      Success(Library(attributes - {RequestsKey}))
    else
      Failure(UnknownAttributeError)
  }

  /** `RequestLibraries#build_request_libraries`: one record per request, in order. */
  function BuildRequestLibraries(requests: seq<RequestAttributes>): (rls: seq<RequestLibrary>)
    ensures |rls| == |requests|
    ensures forall i :: 0 <= i < |requests| ==>
              rls[i].requestId == requests[i].id && rls[i].tagId == TagIdOf(requests[i])
    ensures forall i :: 0 <= i < |requests| && requests[i].tag.None? ==> rls[i].tagId.None?
  {
    if |requests| == 0 then []
    else [RequestLibrary(requests[0].id, TagIdOf(requests[0]))] + BuildRequestLibraries(requests[1..])
  }

  /**
   * `LibraryFactory.new`. The library is built first, so an unknown
   * attribute raises before anything else; then, without a `:requests`
   * list, the source sends `map` to `nil` (or to a string) and raises.
   */
  function NewFactory(attributes: LibraryAttributes, columns: set<string>): (r: Result<Factory>)
    ensures r.Success? <==>
              && (forall k :: k in attributes && k != RequestsKey ==> k in columns)
              && RequestsKey in attributes && attributes[RequestsKey].Requests?
    ensures r.Success? ==>
              && CreateLibrary(attributes, columns) == Success(r.value.library)
              && r.value.requestLibraries == BuildRequestLibraries(attributes[RequestsKey].requests)
    ensures r.Failure? ==>
              r.exception == if CreateLibrary(attributes, columns).Failure? then UnknownAttributeError else NoMethodError
  {
    match CreateLibrary(attributes, columns)
    case Failure(e) => Failure(e)
    case Success(library) =>
      if RequestsKey in attributes && attributes[RequestsKey].Requests? then
        Success(Factory(library, BuildRequestLibraries(attributes[RequestsKey].requests)))
      else
        Failure(NoMethodError)
  }

  function TagIds(rls: seq<RequestLibrary>): (ids: seq<Option<TagId>>)
    ensures |ids| == |rls|
  {
    seq(|rls|, i requires 0 <= i < |rls| => rls[i].tagId)
  }

  function RequestIds(rls: seq<RequestLibrary>): (ids: seq<RequestId>)
    ensures |ids| == |rls|
  {
    seq(|rls|, i requires 0 <= i < |rls| => rls[i].requestId)
  }

  predicate AllTagged(rls: seq<RequestLibrary>) {
    forall i :: 0 <= i < |rls| ==> rls[i].tagId.Some?
  }

  /**
   * `check_tags`: only with two or more request libraries, first every one
   * must have a tag, and only then must the tags differ.
   */
  function CheckTags(rls: seq<RequestLibrary>): (errors: ErrorLog)
    ensures |rls| < 2 ==> errors == []
    ensures |rls| >= 2 && !AllTagged(rls) ==> errors == [TagMissing]
    ensures |rls| >= 2 && AllTagged(rls) ==>
              && (errors == [] <==> Distinct(TagIds(rls)))
              && (errors == [TagReused] <==> !Distinct(TagIds(rls)))
  {
    if |rls| < 2 then []
    else
      var tagIds := TagIds(rls);
      if None in tagIds then
        [TagMissing]
      else
        assert forall i :: 0 <= i < |rls| ==> tagIds[i] == rls[i].tagId;
        UniqFullLengthIffDistinct(tagIds);
        if |tagIds| != |Uniq(tagIds)| then [TagReused] else []
  }

  /** Ruby's `blank?` on a cost code: `nil`, or only whitespace. */
  predicate Blank(costCode: Option<string>) {
    match costCode
    case None => true
    case Some(s) => forall i :: 0 <= i < |s| ==> s[i] as int in {9, 10, 11, 12, 13, 32}
  }

  /** `check_cost_codes`: one error per request library whose request has no cost code. */
  function CheckCostCodes(rls: seq<RequestLibrary>, costCodeOf: RequestId -> Option<string>): (errors: ErrorLog)
    ensures |errors| <= |rls|
    ensures forall i :: 0 <= i < |errors| ==> errors[i] == CostCodeMissing
    ensures errors == [] <==> forall i :: 0 <= i < |rls| ==> !Blank(costCodeOf(rls[i].requestId))
    ensures |errors| == |rls| <==> forall i :: 0 <= i < |rls| ==> Blank(costCodeOf(rls[i].requestId))
  {
    if |rls| == 0 then []
    else
      var prefix := rls[..|rls| - 1];
      assert forall i :: 0 <= i < |prefix| ==> prefix[i] == rls[i];
      CheckCostCodes(prefix, costCodeOf)
      + (if Blank(costCodeOf(rls[|rls| - 1].requestId)) then [CostCodeMissing] else [])
  }

  /** The cost-code errors of a concatenation are those of each part, in order. */
  lemma {:induction false} CheckCostCodesAppend(a: seq<RequestLibrary>, b: seq<RequestLibrary>, costCodeOf: RequestId -> Option<string>)
    ensures CheckCostCodes(a + b, costCodeOf) == CheckCostCodes(a, costCodeOf) + CheckCostCodes(b, costCodeOf)
  {
    if |b| > 0 {
      var b' := b[..|b| - 1];
      assert (a + b)[..|a + b| - 1] == a + b';
      CheckCostCodesAppend(a, b', costCodeOf);
    } else {
      assert a + b == a;
    }
  }

  /** `check_requests_uniq`: one error when a request appears twice, whatever the count. */
  function CheckRequestsUniq(rls: seq<RequestLibrary>): (errors: ErrorLog)
    ensures errors == [] <==> Distinct(RequestIds(rls))
    ensures errors == [RequestReused] <==> !Distinct(RequestIds(rls))
  {
    var requestIds := RequestIds(rls);
    UniqFullLengthIffDistinct(requestIds);
    if |requestIds| != |Uniq(requestIds)| then [RequestReused] else []
  }

  /** The rules the request libraries must satisfy, stated independently of the checks. */
  predicate Acceptable(rls: seq<RequestLibrary>, costCodeOf: RequestId -> Option<string>) {
    && (|rls| >= 2 ==> AllTagged(rls) && Distinct(TagIds(rls)))
    && (forall i :: 0 <= i < |rls| ==> !Blank(costCodeOf(rls[i].requestId)))
    && Distinct(RequestIds(rls))
  }

  /** The errors of `RequestLibraries`, in the order its validations are declared. */
  function RequestLibrariesErrors(rls: seq<RequestLibrary>, costCodeOf: RequestId -> Option<string>): (errors: ErrorLog)
    ensures Valid(errors) <==> Acceptable(rls, costCodeOf)
  {
    CheckTags(rls) + CheckCostCodes(rls, costCodeOf) + CheckRequestsUniq(rls)
  }

  /**
   * Each kind of request-library error forms one block, so Rails 6.0's
   * per-attribute enumeration hands them to the factory as they were added.
   */
  lemma RequestLibrariesErrorsGrouped(rls: seq<RequestLibrary>, costCodeOf: RequestId -> Option<string>)
    ensures Grouped(RequestLibrariesErrors(rls, costCodeOf))
    ensures EachOrder(RequestLibrariesErrors(rls, costCodeOf)) == RequestLibrariesErrors(rls, costCodeOf)
  {
    GroupedBlocks(CheckTags(rls), "tag", CheckCostCodes(rls, costCodeOf), "cost code",
                  CheckRequestsUniq(rls), "request");
  }

  /**
   * `validate_library_and_request_libraries`: the library's errors, then the
   * request libraries' errors.
   */
  function FactoryErrors(f: Factory, env: Environment): (errors: ErrorLog)
    ensures errors == env.libraryErrors(f.library) + RequestLibrariesErrors(f.requestLibraries, env.costCodeOf)
    ensures Valid(errors) <==> Valid(env.libraryErrors(f.library)) && Acceptable(f.requestLibraries, env.costCodeOf)
  {
    var libraryErrors := env.libraryErrors(f.library);
    var requestErrors := RequestLibrariesErrors(f.requestLibraries, env.costCodeOf);
    AbsorbBoth(libraryErrors, requestErrors);
    Absorb(Absorb([], libraryErrors), requestErrors)
  }

  /**
   * `validate_library_and_request_libraries` as Rails 6.0 runs it: each
   * child's entries are added in the order its `errors.each` yields them.
   * The factory then enumerates its errors exactly as `FactoryErrors` does.
   */
  function FactoryErrorsInEachOrder(f: Factory, env: Environment): (errors: ErrorLog)
    ensures EachOrder(errors) == EachOrder(FactoryErrors(f, env))
  {
    var libraryErrors := env.libraryErrors(f.library);
    var requestErrors := RequestLibrariesErrors(f.requestLibraries, env.costCodeOf);
    AbsorbBoth(EachOrder(libraryErrors), EachOrder(requestErrors));
    AbsorbBoth(libraryErrors, requestErrors);
    EachOrderIdempotent(libraryErrors);
    EachOrderIdempotent(requestErrors);
    EachOrderAppendCongruent(EachOrder(libraryErrors), libraryErrors, EachOrder(requestErrors), requestErrors);
    Absorb(Absorb([], EachOrder(libraryErrors)), EachOrder(requestErrors))
  }

  /** A request library as stored, attached to the library at index `library`. */
  datatype StoredRequestLibrary = StoredRequestLibrary(library: nat, requestLibrary: RequestLibrary)

  /** A tube holding the library at index `material`. */
  datatype Tube = Tube(material: nat)

  /** The persisted records, in the order they were saved. */
  datatype Store = Store(libraries: seq<Library>, requestLibraries: seq<StoredRequestLibrary>, tubes: seq<Tube>)

  datatype SaveOutcome = SaveOutcome(saved: bool, store: Store)

  function Attach(library: nat, rls: seq<RequestLibrary>): (stored: seq<StoredRequestLibrary>)
    ensures |stored| == |rls|
    ensures forall i :: 0 <= i < |rls| ==> stored[i] == StoredRequestLibrary(library, rls[i])
  {
    seq(|rls|, i requires 0 <= i < |rls| => StoredRequestLibrary(library, rls[i]))
  }

  /**
   * `LibraryFactory#save`: refuse and persist nothing when invalid; otherwise
   * persist the library, its request libraries and a tube holding it.
   */
  function Save(f: Factory, env: Environment, store: Store): (out: SaveOutcome)
    ensures out.saved <==> Valid(env.libraryErrors(f.library)) && Acceptable(f.requestLibraries, env.costCodeOf)
    ensures !out.saved ==> out.store == store
    ensures out.saved ==>
              var id := |store.libraries|;
              && out.store.libraries == store.libraries + [f.library]
              && out.store.requestLibraries == store.requestLibraries + Attach(id, f.requestLibraries)
              && out.store.tubes == store.tubes + [Tube(id)]
  {
    if !Valid(FactoryErrors(f, env)) then SaveOutcome(false, store)
    else
      var id := |store.libraries|;
      SaveOutcome(true, Store(
        store.libraries + [f.library],
        store.requestLibraries + Attach(id, f.requestLibraries),
        store.tubes + [Tube(id)]))
  }
}
