/**
 * The exported identifier checks. Each takes an entry that may be `null`
 * (`None`) and answers with a boolean.
 */
module Validations {

  import opened Wrappers
  import opened Numerals
  import FileDefinitions

  /** One position of the UUID regular expression. */
  datatype CharClass = Hex | Dash | Version | Variant

  /** `[0-9a-f]`, `-`, `[1-5]` and `[89ab]`, all under the flag `i`. */
  predicate InClass(c: char, cls: CharClass) {
    match cls
    case Hex => IsHexDigit(c)
    case Dash => c == '-'
    case Version => '1' <= c <= '5'
    case Variant => c in "89abAB"
  }

  function Repeat(cls: CharClass, n: nat): (p: seq<CharClass>)
    ensures |p| == n && forall i :: 0 <= i < n ==> p[i] == cls
  {
    seq(n, _ => cls)
  }

  /** The anchored pattern `^[0-9a-f]{8}-[0-9a-f]{4}-[1-5][0-9a-f]{3}-[89ab][0-9a-f]{3}-[0-9a-f]{12}$`. */
  function UuidPattern(): seq<CharClass> {
    Repeat(Hex, 8) + [Dash] + Repeat(Hex, 4) + [Dash]
      + [Version] + Repeat(Hex, 3) + [Dash]
      + [Variant] + Repeat(Hex, 3) + [Dash]
      + Repeat(Hex, 12)
  }

  /** An anchored match of a fixed-width pattern: same length, every character in its class. */
  predicate Matches(s: string, pattern: seq<CharClass>) {
    |s| == |pattern| && forall i :: 0 <= i < |s| ==> InClass(s[i], pattern[i])
  }

  lemma UuidPatternLayout()
    ensures |UuidPattern()| == 36
    ensures forall i :: 0 <= i < 36 ==>
      UuidPattern()[i] == (if i in {8, 13, 18, 23} then Dash
                           else if i == 14 then Version
                           else if i == 19 then Variant
                           else Hex)
  {
  }

  /** `isValidUUID`: truthy and matching the pattern; every accepted entry has the 8-4-4-4-12 layout. */
  function IsValidUUID(entry: Option<string>): (ok: bool)
    ensures ok ==> entry.Some? && |entry.value| == 36
    ensures ok ==> var s := entry.value;
      s[8] == '-' && s[13] == '-' && s[18] == '-' && s[23] == '-'
      && '1' <= s[14] <= '5' && s[19] in "89abAB"
  {
    UuidPatternLayout();
    entry.Some? && entry.value != "" && Matches(entry.value, UuidPattern())
  }

  function IsValidFileId(entry: Option<string>): (ok: bool)
    ensures ok == IsValidUUID(entry)
  {
    IsValidUUID(entry)
  }

  function IsValidFileScid(entry: Option<string>): (ok: bool)
    ensures ok == IsValidUUID(entry)
  {
    IsValidUUID(entry)
  }

  /** `isValidFileType`: a non-empty entry that is one of the file types, compared exactly. */
  function IsValidFileType(entry: Option<string>): (ok: bool)
    ensures ok <==> entry == Some("gameclips") || entry == Some("screenshots")
  {
    entry.Some? && entry.value != "" && entry.value in FileDefinitions.FileTypes
  }

  /** The string `Number(entry)` reads: `null` and `''` both read as 0. */
  function NumberInput(entry: Option<string>): string {
    if entry.Some? then entry.value else ""
  }

  /**
   * `isValidOwnerXUID`: `String(Number(entry)).length >= 16`, i.e. the number
   * read from the entry is at least 10^15. Only digit strings worth less than
   * 10^20 are accepted; see the README for the inputs this leaves out.
   */
  function IsValidOwnerXUID(entry: Option<string>): (ok: bool)
    ensures ok ==> entry.Some? && IsDigits(entry.value) && |entry.value| >= 16
  {
    var s := NumberInput(entry);
    if IsDigits(s) then
      ValueBoundsByLength(StripLeadingZeros(s), 15);
      Pow10(15) <= DecimalValue(s) < Pow10(20)
    else false
  }

  /** `isValidFileNameForType`: membership in the list of the given type; any other type is refused. */
  function IsValidFileNameForType(entry: Option<string>, fileType: Option<string>): (ok: bool)
    ensures fileType == Some("gameclips") ==> (ok <==> entry.Some? && entry.value in FileDefinitions.GameclipFileNames)
    ensures fileType == Some("screenshots") ==> (ok <==> entry.Some? && entry.value in FileDefinitions.ScreenshotFileNames)
    ensures fileType != Some("gameclips") && fileType != Some("screenshots") ==> !ok
  {
    if fileType == Some("gameclips") then
      entry.Some? && entry.value in FileDefinitions.GameclipFileNames
    else if fileType == Some("screenshots") then
      entry.Some? && entry.value in FileDefinitions.ScreenshotFileNames
    else
      false
  }

  /** `null` and `''` are neither UUIDs nor owner ids. */
  lemma EmptyEntriesRejected()
    ensures !IsValidUUID(None) && !IsValidUUID(Some(""))
    ensures !IsValidOwnerXUID(None) && !IsValidOwnerXUID(Some(""))
  {
    assert DecimalValue("") == 0;
  }

  /**
   * For a digit string with no leading zero and at most 20 digits, the owner
   * id is accepted exactly when it has at least 16 digits.
   */
  lemma OwnerXuidByDigitCount(s: string)
    requires IsDigits(s) && s != "" && s[0] != '0' && |s| <= 20
    ensures IsValidOwnerXUID(Some(s)) <==> |s| >= 16
  {
    ValueBoundsByLength(s, 15);
    ValueBoundsByLength(s, 20);
  }

  /** The 16-digit demo owner id is accepted. */
  lemma DemoOwnerIdAccepted()
    ensures IsValidOwnerXUID(Some("2535465515082324"))
  {
    assert "2535465515082324"[0] == '2';
    OwnerXuidByDigitCount("2535465515082324");
  }

  /** A three-digit owner id is refused. */
  lemma ShortOwnerIdRejected()
    ensures !IsValidOwnerXUID(Some("123"))
  {
    assert "123"[0] == '1';
    OwnerXuidByDigitCount("123");
  }

  /** Thumbnails suit both types; each full-size name suits only its own type. */
  lemma FileNamesPerType()
    ensures IsValidFileNameForType(Some("thumbnail-small.png"), Some("gameclips"))
    ensures IsValidFileNameForType(Some("thumbnail-small.png"), Some("screenshots"))
    ensures IsValidFileNameForType(Some("thumbnail-large.png"), Some("gameclips"))
    ensures IsValidFileNameForType(Some("thumbnail-large.png"), Some("screenshots"))
    ensures IsValidFileNameForType(Some("gameclip.mp4"), Some("gameclips"))
    ensures !IsValidFileNameForType(Some("gameclip.mp4"), Some("screenshots"))
    ensures IsValidFileNameForType(Some("screenshot.png"), Some("screenshots"))
    ensures !IsValidFileNameForType(Some("screenshot.png"), Some("gameclips"))
  {
    FileDefinitions.FileNamesByType();
  }
}
