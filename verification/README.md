# Traction factories and sample-sheet fields, modelled in Dafny

This project models the rule-checking and formatting core of the Traction
laboratory tracking service:

- **PacBio library factory** (`Pacbio::LibraryFactory` and its nested
  `RequestLibraries`). It turns submitted request attributes into request
  libraries. It checks the rules across requests: tags present and distinct
  once there are two or more requests, requests distinct, and a cost code on
  every request. It gathers the library's and the request libraries' errors,
  and saves the library, its request libraries and a tube only when there are
  none.
- **Sample-sheet fields** (the `SampleSheet` concern): the zero-padded well
  position, the `group--group` barcode name, the "all libraries tagged"
  test, the barcode set, the constant "same barcodes on both ends" field, and
  the automation-parameters string built from the pre-extension time.
- **ONT plate and well factories** (`Ont::PlateFactory`, `Ont::WellFactory`).
  A plate factory holds one well factory per well. Each well factory holds
  one request factory per sample. Errors are folded up this tree. Serialising
  for the bulk inserter is gated on validity and yields one entry per child,
  in order.
- **ONT GraphQL variable builders** (`OntPlates::Variables#wells`,
  `OntRuns::Variables#flowcells`): the 96 well positions in column order with
  their single sample each, and flow cells numbered 1..n.

Everything is a pure function over immutable datatypes. An ActiveModel error
collection is an `ErrorLog`: the `(attribute, message)` entries in the order
`errors.add` was called. An object is valid when its log is empty. Validations
whose code is not part of this model (`Pacbio::Library`, `::Plate`, `::Well`,
`Ont::RequestFactory`) are function parameters returning an error log.
Database lookups are parameters too: a request's cost code, the tag sets a
`TagSetService` loads, and the oligos of a named tag set. Where the Ruby code
would raise (`map` sent to `nil`, a missing first request library, a tag set
with too few tags), the model returns a `Failure` or `None` instead of
restricting its inputs.

The plate factory builds its well factories without a `:tag_set_service`
(app/models/ont/plate_factory.rb:36). `Ont::WellFactory#initialize` then
returns before building a well (app/models/ont/well_factory.rb:23). The model
keeps this behaviour. It proves the consequence: every well factory of a
built plate factory reports `well cannot be nil`, so a built plate factory is
never valid and never serialises while validation is on
(`OntPlateFactory.BuiltPlateFactoryNeverValid`).

Modules: `Wrappers` (Option, Result), `Sequences` (`Array#uniq`, `compact`,
flattening), `Errors` (the error log, the child-error fold and Rails 6.0's enumeration order), `Text`
(`Integer#to_s` and its inverse), `PacbioLibraryFactory`, `SampleSheet`,
`OntWellFactory`, `OntPlateFactory`, `TractionGraphQL`.

## Model

| member | source | states |
|---|---|---|
| Sequences.UniqFullLengthIffDistinct | app/models/pacbio/library_factory.rb:129-130 | comparing a list's length with that of its `uniq` detects exactly a repeated element |
| Sequences.Uniq | app/models/pacbio/library_factory.rb:144-146 | `uniq` keeps every element once: the result is duplicate-free, no longer than the input, and has the same elements |
| Sequences.Compact | app/models/concerns/sample_sheet.rb:33 | `compact` is no longer than its input, and as long exactly when nothing is nil |
| Errors.Absorb | app/models/pacbio/library_factory.rb:71-81 | merging a child's errors appends them; a valid child adds nothing |
| Errors.AbsorbInvalid | app/models/ont/plate_factory.rb:56-62 | the fold over children is error-free exactly when every child is valid |
| Errors.AbsorbInvalidIsFlatten | app/models/ont/well_factory.rb:74-82 | the fold yields every child's errors, child by child, in order |
| Errors.AbsorbInvalidSkipsValid | app/models/ont/well_factory.rb:76 | removing a valid child leaves the collected errors unchanged |
| Errors.GroupedEachOrder | app/models/pacbio/library_factory.rb:72-74 | on a grouped log, Rails 6.0's enumeration (every entry of the first attribute used, then the next attribute's, and so on) is the insertion order |
| Errors.AbsorbEachOrder | app/models/ont/plate_factory.rb:59-61 | absorbing a child's entries in Rails 6.0's `each` order or in insertion order leaves the parent enumerating identically, for any parent and child |
| Errors.EachOrderOfAppend | app/models/pacbio/library_factory.rb:79-81 | adding a child's per-attribute enumeration after any log enumerates the same as adding the child's entries as inserted |
| Errors.EachOrderOfPrefix | app/models/pacbio/library_factory.rb:71-81 | a parent that already holds its first child's entries in `each` order enumerates the same as one holding them as inserted, whatever follows |
| Errors.EachOrderAppendCongruent | app/models/ont/well_factory.rb:60-82 | concatenating logs that Rails 6.0 enumerates alike gives logs it enumerates alike, so successive absorbs never drift apart |
| Errors.AbsorbInvalidCongruent | app/models/ont/plate_factory.rb:56-62 | folding children that Rails 6.0 enumerates alike gives parents it enumerates alike |
| Errors.AbsorbInvalidInEachOrder | app/models/ont/well_factory.rb:74-82 | the fold adding each invalid child's entries in `each` order enumerates exactly as the insertion-order fold |
| Errors.AbsorbGrouped | app/models/pacbio/library_factory.rb:79-81 | absorbing a grouped child gives the same log under either enumeration order |
| Errors.GroupedBlocks | app/models/pacbio/library_factory.rb:79-81 | three blocks, each about its own attribute, form a grouped log, and Rails 6.0 enumerates it in insertion order |
| Text.IntToString | app/models/concerns/sample_sheet.rb:48 | an integer prints in canonical form: digits with no redundant leading zero, after a '-' exactly for negatives |
| Text.IntToStringRoundTrip | app/models/concerns/sample_sheet.rb:48 | the printed integer parses back to itself |
| Text.CanonicalIsPrinted | app/models/concerns/sample_sheet.rb:48 | every canonical form is the printing of the integer it parses to, so each integer has exactly one printed form |
| Text.NatToStringInjective | lib/traction_graphql.rb:54 | different column numbers print differently |
| PacbioLibraryFactory.TagIdOf | app/models/pacbio/library_factory.rb:112 | a request library has a tag id exactly when the attributes carry a `:tag` with an `:id` |
| PacbioLibraryFactory.CreateLibrary | app/models/pacbio/library_factory.rb:59-64 | raises an unknown-attribute error exactly when a key other than `:requests` is not a library attribute; otherwise the library gets every attribute except `:requests`, unchanged |
| PacbioLibraryFactory.BuildRequestLibraries | app/models/pacbio/library_factory.rb:108-115 | one request library per request attribute, in order, with that request's id and tag id; no `:tag` means no tag id |
| PacbioLibraryFactory.NewFactory | app/models/pacbio/library_factory.rb:53-67 | construction succeeds exactly when every other key is a library attribute and `:requests` is a list; an unknown attribute raises first, a missing or non-list `:requests` raises `NoMethodError` |
| PacbioLibraryFactory.CheckTags | app/models/pacbio/library_factory.rb:117-131 | no error below two request libraries; otherwise one "must be present" error if any tag is missing, else one "is used more than once" error exactly when the tags repeat |
| PacbioLibraryFactory.CheckCostCodes | app/models/pacbio/library_factory.rb:133-140 | only cost-code errors, none exactly when every request has a non-blank cost code, one per request library exactly when none has |
| PacbioLibraryFactory.CheckCostCodesAppend | app/models/pacbio/library_factory.rb:135-139 | the check is per request library: the errors of a concatenation are those of its parts, in order |
| PacbioLibraryFactory.CheckRequestsUniq | app/models/pacbio/library_factory.rb:142-147 | one "is used more than once" error exactly when a request repeats, whatever the count |
| PacbioLibraryFactory.RequestLibrariesErrors | app/models/pacbio/library_factory.rb:88 | the request libraries are valid exactly when they meet the stated rules: tagged and distinct tags from two on, cost codes present, requests distinct |
| PacbioLibraryFactory.RequestLibrariesErrorsGrouped | app/models/pacbio/library_factory.rb:79-81 | the request-library errors come in per-attribute blocks, and Rails 6.0's per-attribute enumeration yields them in the order added |
| PacbioLibraryFactory.FactoryErrors | app/models/pacbio/library_factory.rb:70-82 | the factory's errors are the library's followed by the request libraries'; none exactly when both are valid |
| PacbioLibraryFactory.FactoryErrorsInEachOrder | app/models/pacbio/library_factory.rb:70-82 | the log Rails 6.0 builds, adding the library's and then the request libraries' entries in `each` order, enumerates exactly as the model's |
| PacbioLibraryFactory.Save | app/models/pacbio/library_factory.rb:40-49 | saving succeeds exactly when valid; a refused save changes nothing; a save appends the library, its request libraries and a tube holding it |
| SampleSheet.RightJustify | app/models/concerns/sample_sheet.rb:11 | left padding reaches the width, ends with the original text, and never truncates |
| SampleSheet.PositionLeadingZero | app/models/concerns/sample_sheet.rb:10-12 | the row, then the column padded with '0' to two characters; longer columns unchanged |
| SampleSheet.BarcodeName | app/models/concerns/sample_sheet.rb:16-20 | no barcode name exactly when there is no tag |
| SampleSheet.BarcodeNameRoundTrip | app/models/concerns/sample_sheet.rb:19 | the barcode name is the group id twice around `--`: the group id reads back out of it |
| SampleSheet.AllLibrariesTagged | app/models/concerns/sample_sheet.rb:31-36 | the count comparison holds exactly when every request library has a tag, vacuously for none |
| SampleSheet.BarcodeSet | app/models/concerns/sample_sheet.rb:23-28 | none when some library is untagged; otherwise the first library's tag-set uuid; raises with no libraries |
| SampleSheet.SameBarcodesOnBothEndsOfSequence | app/models/concerns/sample_sheet.rb:39-42 | always true |
| SampleSheet.AutomationParameters | app/models/concerns/sample_sheet.rb:44-49 | none exactly for a missing or zero pre-extension time; otherwise the fixed prefix and suffix around exactly the `Integer#to_s` form of the time |
| SampleSheet.AutomationParametersRoundTrip | app/models/concerns/sample_sheet.rb:48 | the parameters string carries exactly the pre-extension time |
| OntWellFactory.BuildRequestFactories | app/models/ont/well_factory.rb:55-58 | one request factory per sample, in order, all given the loaded tag set |
| OntWellFactory.NewWellFactory | app/models/ont/well_factory.rb:22-28 | a well exists exactly when both `:well_attributes` and `:tag_set_service` are given; it has the given position and plate; request factories exist only with `:samples`, one per sample, each given the tag set the service loads under the pipeline's name |
| OntWellFactory.CheckWell | app/models/ont/well_factory.rb:61-72 | a missing well is exactly the one "cannot be nil" error; otherwise the well's own errors |
| OntWellFactory.CheckRequestFactories | app/models/ont/well_factory.rb:74-82 | each request factory's errors in order; none exactly when all are valid |
| OntWellFactory.WellFactoryErrors | app/models/ont/well_factory.rb:11 | valid exactly when the well exists and is valid and every request factory is valid; a missing well's error comes first |
| OntWellFactory.CheckWellInEachOrder | app/models/ont/well_factory.rb:61-72 | `check_well` adding the well's entries in `each` order enumerates exactly as the model's |
| OntWellFactory.WellFactoryErrorsInEachOrder | app/models/ont/well_factory.rb:61-82 | the log Rails 6.0 builds through both checks, children's entries in `each` order, enumerates exactly as the model's |
| OntWellFactory.UnbuiltWellFactoryErrors | app/models/ont/well_factory.rb:23 | a factory that returned early has exactly the error `well cannot be nil` |
| OntWellFactory.BulkInsertSerialise | app/models/ont/well_factory.rb:30-39 | refused exactly when validation is on and fails; otherwise the well and one entry per request factory, in order |
| OntPlateFactory.BuildWellFactories | app/models/ont/plate_factory.rb:35-37 | one well factory per well entry, in order, each given the plate and no tag set service |
| OntPlateFactory.NewPlateFactory | app/models/ont/plate_factory.rb:32-43 | the plate has the given barcode; missing wells mean an empty list |
| OntPlateFactory.NewPlateFactoryReadsOnlyBarcodeAndWells | app/models/ont/plate_factory.rb:33-41 | attributes other than `:barcode` and `:wells` do not affect the factory |
| OntPlateFactory.CheckPlate | app/models/ont/plate_factory.rb:45-51 | the plate's own errors |
| OntPlateFactory.CheckWellFactories | app/models/ont/plate_factory.rb:53-63 | "cannot be empty" exactly for no wells; otherwise each invalid well factory's errors in order |
| OntPlateFactory.PlateFactoryErrors | app/models/ont/plate_factory.rb:11 | valid exactly when the plate is valid, there are wells, and every well factory is valid |
| OntPlateFactory.CheckPlateInEachOrder | app/models/ont/plate_factory.rb:45-51 | `check_plate` adding the plate's entries in `each` order enumerates exactly as the model's |
| OntPlateFactory.CheckWellFactoriesInEachOrder | app/models/ont/plate_factory.rb:53-63 | `check_well_factories` adding each well factory's entries, as that factory collected them, in `each` order enumerates exactly as the model's |
| OntPlateFactory.PlateFactoryErrorsInEachOrder | app/models/ont/plate_factory.rb:45-63 | the log Rails 6.0 builds at every level of the plate, well and request factories enumerates exactly as the model's |
| OntPlateFactory.BuiltWellFactoriesHaveNoWell | app/models/ont/plate_factory.rb:36 | every well factory of a built plate factory has no well, no request factories and the single nil-well error |
| OntPlateFactory.BuiltPlateFactoryErrors | app/models/ont/plate_factory.rb:45-63 | a built plate factory's errors: the plate's, then "cannot be empty" or one nil-well error per well |
| OntPlateFactory.BuiltPlateFactoryNeverValid | app/models/ont/plate_factory.rb:54-61 | a built plate factory is never valid |
| OntPlateFactory.SerialiseWells | app/models/ont/plate_factory.rb:22-24 | one entry per well factory, each what that factory serialises with validation off |
| OntPlateFactory.PlateBulkInsertSerialise | app/models/ont/plate_factory.rb:19-26 | refused exactly when validation is on and fails; otherwise the plate and one entry per well factory, in order |
| OntPlateFactory.BuiltPlateFactoryNeverSerialisesValidated | app/models/ont/plate_factory.rb:20 | with validation on, a built plate factory is always refused |
| TractionGraphQL.Product | lib/traction_graphql.rb:53 | the product has one pair per combination |
| TractionGraphQL.ProductIndex | lib/traction_graphql.rb:53 | entry `q * n + r` of the product pairs the q-th column with the r-th row |
| TractionGraphQL.WellPositions | lib/traction_graphql.rb:53-55 | 96 positions; entry i is row letter `i % 8` followed by column `i / 8 + 1` |
| TractionGraphQL.WellPositionsDistinct | lib/traction_graphql.rb:53-55 | no position occurs twice |
| TractionGraphQL.WellAt | lib/traction_graphql.rb:65-74 | one well at the position, with a single sample carrying the oligo, named "Sample <name> in <position>", with external id "<position>-ExtId" |
| TractionGraphQL.ExternalIdRoundTrip | lib/traction_graphql.rb:70 | the position reads back out of the sample's external id |
| TractionGraphQL.Wells | lib/traction_graphql.rb:52-61 | raises exactly when the tag set is missing or has fewer than 96 tags; otherwise well i is at position i with the i-th tag's oligo |
| TractionGraphQL.WellsAreDistinct | lib/traction_graphql.rb:58-60 | the generated wells have pairwise different positions and external ids |
| TractionGraphQL.Flowcells | lib/traction_graphql.rb:99-103 | one flow cell per library name, in order, flow cell i at position i + 1 |
| TractionGraphQL.FlowcellPositionsAreOneToN | lib/traction_graphql.rb:100-102 | the positions are exactly 1, 2, ..., n |

## Left out

- Persistence: `save` on ActiveRecord objects, transactions and database ids. `PacbioLibraryFactory.Save` appends to an abstract store instead.
- Lookups: `Pacbio::Request.find`, `TagSet.find_by` and `TagSetService#load_tag_set` are parameters. `find` raising for an unknown request id is not modelled, because the lookup is a total function; a request attribute always carries an `:id`.
- `PacbioLibraryFactory.Blank`: Ruby's `blank?` also treats Unicode space characters as blank; the model knows only the ASCII whitespace characters.
- Validations whose code is not part of this model: `Pacbio::Library`, `::Plate`, `::Well` and `Ont::RequestFactory`. Each is a parameter returning its error log in the order its validations add the entries.
- `Errors.Absorb`: the model follows Rails 6.0 and earlier, where `errors.each { |k, v| ... }` yields entries attribute by attribute in order of first use (`Errors.EachOrder`). A log keeps the order `errors.add` was called, and `Absorb` appends the child's entries in that order rather than in `each` order. `Errors.AbsorbEachOrder` proves that Rails 6.0's enumeration of the result is the same either way for one absorb. `Errors.EachOrderAppendCongruent` extends this to any sequence of absorbs. The factory-level statements are `PacbioLibraryFactory.FactoryErrorsInEachOrder`, `OntWellFactory.WellFactoryErrorsInEachOrder` and `OntPlateFactory.PlateFactoryErrorsInEachOrder`. The model does not cover Rails 6.1, whose two-parameter `each` yields the entries sorted by attribute name.
- The request factories' own `bulk_insert_serialise` and the bulk inserter's `well_data` and `plate_data`. The first is a parameter; the others are records of what they receive.
- The pipeline constant `ont_covid_pcr_tag_set_name` is a parameter.
- `SampleSheet.AutomationParameters`: the pre-extension time is an integer printed by `Integer#to_s`; a floating-point column value and its printing are not modelled.
- Float fields (volume, concentration, movie time) and the CSV rendering of `CsvGenerator`, whose code is not part of this model.
- The GraphQL HTTP client, the schema loading and the mutation documents in lib/traction_graphql.rb. These are network I/O and query text.
- Controllers, GraphQL types and mutations, JSON-API serialisation, migrations and messaging.
- `PacbioLibraryFactory.CreateLibrary`: the library's attribute names are a parameter, because its columns come from migrations that are not part of this model.
- `OntPlateFactory.NewPlateFactory`: `extract!` removes `:wells` and `:barcode` from the caller's hash. The model passes immutable attributes, so that side effect on the caller is not modelled.
- Hash keys present with a `nil` value are treated like missing keys. Where that would raise in the source (a `nil` `:samples` or `:well_attributes`), the model does not.
