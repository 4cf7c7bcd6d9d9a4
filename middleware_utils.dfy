/**
 * The helpers the middleware actually calls: its own copies of the UUID and
 * XUID checks, and the builder of the Xbox Live metadata endpoint URI.
 */
module MiddlewareUtils {

  import opened Wrappers
  import opened Numerals
  import Validations

  predicate AllHex(s: string) {
    forall i :: 0 <= i < |s| ==> IsHexDigit(s[i])
  }

  /**
   * The layout `isValidUUID` asks for: five hexadecimal groups of 8, 4, 4, 4
   * and 12 characters joined by `-`, the third group led by a version digit
   * 1-5 and the fourth by a variant digit 8, 9, a or b (either case).
   */
  predicate UuidGroups(s: string) {
    && |s| == 36
    && AllHex(s[0..8]) && s[8] == '-'
    && AllHex(s[9..13]) && s[13] == '-'
    && '1' <= s[14] <= '5' && AllHex(s[15..18]) && s[18] == '-'
    && s[19] in "89abAB" && AllHex(s[20..23]) && s[23] == '-'
    && AllHex(s[24..36])
  }

  /** An accepted UUID holds only hexadecimal digits and dashes, so it is a single path piece. */
  lemma ValidUuidIsOnePiece(s: string)
    requires UuidGroups(s)
    ensures '/' !in s
  {
    forall i | 0 <= i < 36 ensures s[i] != '/' {
      if i < 8 { assert s[0..8][i] == s[i]; }
      else if 9 <= i < 13 { assert s[9..13][i - 9] == s[i]; }
      else if 15 <= i < 18 { assert s[15..18][i - 15] == s[i]; }
      else if 20 <= i < 23 { assert s[20..23][i - 20] == s[i]; }
      else if 24 <= i { assert s[24..36][i - 24] == s[i]; }
    }
  }

  /** `isValidUUID`: a present, non-empty entry laid out as `UuidGroups`. */
  predicate IsValidUUID(entry: Option<string>): (ok: bool)
    ensures ok ==> entry.Some? && |entry.value| == 36 && '/' !in entry.value
  {
    if entry.Some? && entry.value != "" && UuidGroups(entry.value) then
      ValidUuidIsOnePiece(entry.value);
      true
    else false
  }

  /** The two copies of the UUID check accept exactly the same entries. */
  lemma UuidCopiesAgree(entry: Option<string>)
    ensures IsValidUUID(entry) == Validations.IsValidUUID(entry)
  {
    Validations.UuidPatternLayout();
    if entry.Some? && |entry.value| == 36 {
      var s, p := entry.value, Validations.UuidPattern();
      if IsValidUUID(entry) {
        forall i | 0 <= i < 36 ensures Validations.InClass(s[i], p[i]) {
          if i < 8 { assert s[0..8][i] == s[i]; }
          else if 9 <= i < 13 { assert s[9..13][i - 9] == s[i]; }
          else if 15 <= i < 18 { assert s[15..18][i - 15] == s[i]; }
          else if 20 <= i < 23 { assert s[20..23][i - 20] == s[i]; }
          else if 24 <= i { assert s[24..36][i - 24] == s[i]; }
        }
      }
      if Validations.IsValidUUID(entry) {
        assert forall i :: 0 <= i < 36 ==> Validations.InClass(s[i], p[i]);
        assert AllHex(s[0..8]) && AllHex(s[9..13]) && AllHex(s[15..18]);
        assert AllHex(s[20..23]) && AllHex(s[24..36]);
      }
    }
  }

  /**
   * `isValidXUID` on digit strings: `String(Number(entry))` has at least 16
   * characters exactly when the entry has at least 16 significant digits, for
   * entries of at most 20 significant digits. Only such digit strings are
   * accepted.
   */
  predicate IsValidXUID(entry: Option<string>): (ok: bool)
    ensures ok ==> entry.Some? && IsDigits(entry.value) && |entry.value| >= 16 && '/' !in entry.value
  {
    var s := if entry.Some? then entry.value else "";
    IsDigits(s) && 16 <= |StripLeadingZeros(s)| <= 20
  }

  /** The two copies of the owner-id check accept exactly the same entries. */
  lemma XuidCopiesAgree(entry: Option<string>)
    ensures IsValidXUID(entry) == Validations.IsValidOwnerXUID(entry)
  {
    var s := Validations.NumberInput(entry);
    if IsDigits(s) {
      var t := StripLeadingZeros(s);
      ValueBoundsByLength(t, 15);
      ValueBoundsByLength(t, 20);
    }
  }

  /** The demo owner id is accepted; a three-digit id is not. */
  lemma DemoXuids()
    ensures IsValidXUID(Some("2535465515082324"))
    ensures !IsValidXUID(Some("123"))
  {
    assert "2535465515082324"[0] == '2';
    assert "123"[0] == '1';
  }

  /** The collection segment: `clips` for game clips, the type itself otherwise. */
  function Collection(fileType: string): string {
    if fileType == "gameclips" then "clips" else fileType
  }

  predicate HasPrefix(s: string, prefix: string) {
    |prefix| <= |s| && s[..|prefix|] == prefix
  }

  predicate HasSuffix(s: string, suffix: string) {
    |suffix| <= |s| && s[|s| - |suffix|..] == suffix
  }

  const Scheme: string := "https://"
  const HostAndUser: string := "metadata.xboxlive.com/users/xuid("
  const ScidsSegment: string := ")/scids/"

  /** `computeFileMetadataUri`: `https://{type}metadata.xboxlive.com`, then the owner, scid, collection and file id. */
  function ComputeFileMetadataUri(fileType: string, xuid: string, scid: string, fileId: string): (uri: string)
    ensures HasPrefix(uri, Scheme + fileType + HostAndUser)
    ensures HasSuffix(uri, "/" + fileId)
  {
    var head := Scheme + fileType + HostAndUser;
    var middle := xuid + ScidsSegment + scid + "/" + Collection(fileType);
    var tail := "/" + fileId;
    assert (head + (middle + tail))[..|head|] == head;
    assert ((head + middle) + tail)[|head + middle|..] == tail;
    head + middle + tail
  }

  /** The parts a metadata URI is built from. */
  datatype MetadataTarget = MetadataTarget(fileType: string, xuid: string, scid: string, fileId: string)


  /** Index of the first `c` in `s`, or `|s|` when there is none. */
  function IndexOf(s: string, c: char): (k: nat)
    ensures k <= |s| && c !in s[..k] && (k < |s| ==> s[k] == c)
  {
    if s == [] then 0
    else if s[0] == c then 0
    else 1 + IndexOf(s[1..], c)
  }

  /** Reads a metadata URI back into its parts; the inverse of `ComputeFileMetadataUri`. */
  function ParseFileMetadataUri(uri: string): Option<MetadataTarget> {
    if HasPrefix(uri, Scheme) then ParseAfterScheme(uri[|Scheme|..]) else None
  }

  function ParseAfterScheme(s: string): Option<MetadataTarget> {
    var fileType := if HasPrefix(s, "gameclips") then "gameclips"
                    else if HasPrefix(s, "screenshots") then "screenshots"
                    else "";
    if fileType != "" && HasPrefix(s[|fileType|..], HostAndUser) then
      ParseOwner(fileType, s[|fileType|..][|HostAndUser|..])
    else None
  }

  /** The owner id runs up to the first `)`. */
  function ParseOwner(fileType: string, s: string): Option<MetadataTarget> {
    var k := IndexOf(s, ')');
    ParseScid(fileType, s[..k], s[k..])
  }

  function ParseScid(fileType: string, xuid: string, s: string): Option<MetadataTarget> {
    if HasPrefix(s, ScidsSegment) && |s| >= |ScidsSegment| + 36 then
      ParseFileId(fileType, xuid, s[|ScidsSegment|..][..36], s[|ScidsSegment|..][36..])
    else None
  }

  function ParseFileId(fileType: string, xuid: string, scid: string, s: string): Option<MetadataTarget> {
    var middle := "/" + Collection(fileType) + "/";
    if HasPrefix(s, middle) then Some(MetadataTarget(fileType, xuid, scid, s[|middle|..])) else None
  }

  lemma DropPrefix(a: string, b: string)
    ensures HasPrefix(a + b, a) && (a + b)[|a|..] == b
  {
    assert (a + b)[..|a|] == a;
  }

  /** The URI as nested layers, outermost first, in the order the parser peels them off. */
  lemma Assoc(x: string, y: string, z: string)
    ensures x + y + z == x + (y + z)
  {
  }

  lemma ComputedUriLayers(fileType: string, xuid: string, scid: string, fileId: string)
    ensures ComputeFileMetadataUri(fileType, xuid, scid, fileId)
      == Scheme + (fileType + (HostAndUser + (xuid + (ScidsSegment + (scid + (("/" + Collection(fileType) + "/") + fileId))))))
  {
    var c, tail := Collection(fileType), "/" + fileId;
    var head := Scheme + fileType + HostAndUser;
    var middle := xuid + ScidsSegment + scid + "/" + c;
    var fromCollection := "/" + (c + tail);
    Assoc("/" + c, "/", fileId);
    Assoc("/", c, tail);
    Assoc(xuid + ScidsSegment + scid + "/", c, tail);
    Assoc(xuid + ScidsSegment + scid, "/", c + tail);
    Assoc(xuid + ScidsSegment, scid, fromCollection);
    Assoc(xuid, ScidsSegment, scid + fromCollection);
    var owner := xuid + (ScidsSegment + (scid + fromCollection));
    Assoc(head, middle, tail);
    Assoc(Scheme + fileType, HostAndUser, owner);
    Assoc(Scheme, fileType, HostAndUser + owner);
  }

  lemma ParseFileIdBack(fileType: string, xuid: string, scid: string, fileId: string)
    ensures ParseFileId(fileType, xuid, scid, ("/" + Collection(fileType) + "/") + fileId)
            == Some(MetadataTarget(fileType, xuid, scid, fileId))
  {
    DropPrefix("/" + Collection(fileType) + "/", fileId);
  }

  lemma ParseScidBack(fileType: string, xuid: string, scid: string, tail: string)
    requires |scid| == 36
    ensures ParseScid(fileType, xuid, ScidsSegment + (scid + tail)) == ParseFileId(fileType, xuid, scid, tail)
  {
    DropPrefix(ScidsSegment, scid + tail);
    DropPrefix(scid, tail);
  }

  lemma ParseOwnerBack(fileType: string, xuid: string, rest: string)
    requires ')' !in xuid && rest != [] && rest[0] == ')'
    ensures ParseOwner(fileType, xuid + rest) == ParseScid(fileType, xuid, rest)
  {
    IndexOfAfterPrefix(xuid, rest, ')');
    DropPrefix(xuid, rest);
  }

  lemma ParseAfterSchemeBack(fileType: string, rest: string)
    requires fileType == "gameclips" || fileType == "screenshots"
    ensures ParseAfterScheme(fileType + (HostAndUser + rest)) == ParseOwner(fileType, rest)
  {
    var s := fileType + (HostAndUser + rest);
    DropPrefix(fileType, HostAndUser + rest);
    DropPrefix(HostAndUser, rest);
    assert s[0] == fileType[0];
  }

  /**
   * Round trip: for a supported type, an owner id without `)` and a 36-character
   * scid, the URI determines every part it was built from.
   */
  lemma ParseComputedUri(fileType: string, xuid: string, scid: string, fileId: string)
    requires fileType == "gameclips" || fileType == "screenshots"
    requires ')' !in xuid && |scid| == 36
    ensures ParseFileMetadataUri(ComputeFileMetadataUri(fileType, xuid, scid, fileId))
            == Some(MetadataTarget(fileType, xuid, scid, fileId))
  {
    var tail := ("/" + Collection(fileType) + "/") + fileId;
    var afterXuid := ScidsSegment + (scid + tail);
    var afterScheme := fileType + (HostAndUser + (xuid + afterXuid));
    ComputedUriLayers(fileType, xuid, scid, fileId);
    DropPrefix(Scheme, afterScheme);
    ParseAfterSchemeBack(fileType, xuid + afterXuid);
    ParseOwnerBack(fileType, xuid, afterXuid);
    ParseScidBack(fileType, xuid, scid, tail);
    ParseFileIdBack(fileType, xuid, scid, fileId);
  }

  lemma IndexOfAfterPrefix(prefix: string, rest: string, c: char)
    requires c !in prefix && rest != [] && rest[0] == c
    ensures IndexOf(prefix + rest, c) == |prefix|
  {
    if prefix != [] {
      assert (prefix + rest)[1..] == prefix[1..] + rest;
      IndexOfAfterPrefix(prefix[1..], rest, c);
    } else {
      assert prefix + rest == rest;
    }
  }

  /** A digit owner id never contains `)`, and an accepted UUID is 36 characters long. */
  lemma ValidPartsParseBack(fileType: string, xuid: string, scid: string, fileId: string)
    requires fileType == "gameclips" || fileType == "screenshots"
    requires IsValidXUID(Some(xuid)) && IsValidUUID(Some(scid))
    ensures ParseFileMetadataUri(ComputeFileMetadataUri(fileType, xuid, scid, fileId))
            == Some(MetadataTarget(fileType, xuid, scid, fileId))
  {
    assert forall i :: 0 <= i < |xuid| ==> xuid[i] != ')';
    ParseComputedUri(fileType, xuid, scid, fileId);
  }
}
