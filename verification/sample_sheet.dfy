/**
 * The `SampleSheet` concern: the per-well and per-request-library fields of a
 * PacBio run's sample sheet.
 */
module SampleSheet {
  import opened Wrappers
  import opened Sequences
  import opened Text

  type TagId = int

  /** A tag as the sample sheet reads it: its group and the uuid of its tag set. */
  datatype Tag = Tag(id: TagId, groupId: string, tagSetUuid: string)

  /** A request library as the sample sheet reads it: only its tag matters here. */
  datatype SheetRequestLibrary = SheetRequestLibrary(tag: Option<Tag>)

  /** Ruby's `String#rjust(width, pad)`: left-pad to `width`; never truncates. */
  function RightJustify(s: string, width: nat, pad: char): (r: string)
    ensures |r| == if |s| >= width then |s| else width
    ensures r[|r| - |s|..] == s
    ensures forall i :: 0 <= i < |r| - |s| ==> r[i] == pad
  {
    if |s| >= width then s else Repeat(pad, width - |s|) + s
  }

  /** `position_leading_zero`: the row, then the column padded with '0' to two characters. */
  function PositionLeadingZero(row: string, column: string): (position: string)
    ensures |column| >= 2 ==> position == row + column
    ensures |column| == 1 ==> position == row + "0" + column
    ensures |column| == 0 ==> position == row + "00"
  {
    var padded := RightJustify(column, 2, '0');
    assert |column| == 1 ==> padded == "0" + column;
    assert |column| == 0 ==> padded == "00";
    row + padded
  }

  /** `barcode_name`: nothing without a tag, otherwise the tag's group id twice, joined by "--". */
  function BarcodeName(tag: Option<Tag>): (name: Option<string>)
    ensures name.None? <==> tag.None?
    ensures name.Some? ==> |name.value| == 2 * |tag.value.groupId| + 2
  {
    match tag
    case None => None
    case Some(t) => Some(t.groupId + "--" + t.groupId)
  }

  /** Recover the group id from a barcode name of the form `g--g`. */
  function GroupIdOf(name: string): (g: Option<string>)
    ensures g.Some? ==> name == g.value + "--" + g.value
  {
    if |name| >= 2 && |name| % 2 == 0 then
      var half := name[..(|name| - 2) / 2];
      if name == half + "--" + half then Some(half) else None
    else None
  }

  /** The group id can always be read back from the barcode name. */
  lemma BarcodeNameRoundTrip(tag: Tag)
    ensures GroupIdOf(BarcodeName(Some(tag)).value) == Some(tag.groupId)
  {
    var name := BarcodeName(Some(tag)).value;
    assert name[..(|name| - 2) / 2] == tag.groupId;
  }

  /** A well's `tags`: the tag id of each of its request libraries. */
  function Tags(rls: seq<SheetRequestLibrary>): (tags: seq<Option<TagId>>)
    ensures |tags| == |rls|
  {
    seq(|rls|, i requires 0 <= i < |rls| =>
      match rls[i].tag
      case None => None
      case Some(t) => Some(t.id))
  }

  /**
   * `all_libraries_tagged`: as many tags as request libraries, which amounts
   * to every request library having a tag.
   */
  function AllLibrariesTagged(rls: seq<SheetRequestLibrary>): (r: bool)
    ensures r <==> forall i :: 0 <= i < |rls| ==> rls[i].tag.Some?
  {
    var tags := Tags(rls);
    assert forall i :: 0 <= i < |rls| ==> (tags[i].Some? <==> rls[i].tag.Some?);
    |rls| == |Compact(tags)|
  }

  /**
   * `barcode_set`: nothing unless every request library is tagged, otherwise
   * the first one's tag set uuid. With no request libraries at all the
   * source asks `nil` for its tag and raises.
   */
  function BarcodeSet(rls: seq<SheetRequestLibrary>): (r: Result<Option<string>>)
    ensures r.Failure? <==> |rls| == 0
    ensures r == Success(None) <==> exists i :: 0 <= i < |rls| && rls[i].tag.None?
    ensures r.Success? && r.value.Some? ==>
              && (forall i :: 0 <= i < |rls| ==> rls[i].tag.Some?)
              && r.value.value == rls[0].tag.value.tagSetUuid
  {
    if !AllLibrariesTagged(rls) then Success(None)
    else if |rls| == 0 then Failure(NoMethodError)
    else Success(Some(rls[0].tag.value.tagSetUuid))
  }

  /** `same_barcodes_on_both_ends_of_sequence`: always true. */
  function SameBarcodesOnBothEndsOfSequence(): (same: bool)
    ensures same
  {
    true
  }

  const ExtensionTimePrefix := "ExtensionTime=double:"
  const ExtendFirstSuffix := "|ExtendFirst=boolean:True"

  /** `automation_parameters`: nothing for a missing or zero pre-extension time. */
  function AutomationParameters(preExtensionTime: Option<int>): (r: Option<string>)
    ensures r.None? <==> preExtensionTime.None? || preExtensionTime == Some(0)
    ensures r.Some? ==>
              && |r.value| > |ExtensionTimePrefix| + |ExtendFirstSuffix|
              && r.value[..|ExtensionTimePrefix|] == ExtensionTimePrefix
              && r.value[|r.value| - |ExtendFirstSuffix|..] == ExtendFirstSuffix
              && r.value[|ExtensionTimePrefix|..|r.value| - |ExtendFirstSuffix|] == IntToString(preExtensionTime.value)
  {
    if preExtensionTime == Some(0) then None
    else if preExtensionTime.None? then None
    else Some(ExtensionTimePrefix + IntToString(preExtensionTime.value) + ExtendFirstSuffix)
  }

  /** Read the extension time back out of an automation parameters string. */
  function ExtensionTimeOf(parameters: string): Option<int> {
    var lo := |ExtensionTimePrefix|;
    var hi := |parameters| - |ExtendFirstSuffix|;
    if lo <= hi
       && parameters[..lo] == ExtensionTimePrefix
       && parameters[hi..] == ExtendFirstSuffix
    then ParseInt(parameters[lo..hi])
    else None
  }

  /** The parameters string carries exactly the pre-extension time. */
  lemma AutomationParametersRoundTrip(preExtensionTime: int)
    requires preExtensionTime != 0
    ensures ExtensionTimeOf(AutomationParameters(Some(preExtensionTime)).value) == Some(preExtensionTime)
  {
    var p := AutomationParameters(Some(preExtensionTime)).value;
    var shown := IntToString(preExtensionTime);
    assert p[|ExtensionTimePrefix|..|p| - |ExtendFirstSuffix|] == shown;
    IntToStringRoundTrip(preExtensionTime);
  }
}
