/**
 * `replacePlaceholders` of the HTML5 player example: every `{KEY}` token of
 * a page template is replaced, key after key in declaration order, by a demo
 * URI served through the middleware.
 */
module PlayerTemplates {

  import opened Wrappers
  import PathText
  import ProxyMiddleware
  import MiddlewareUtils

  /** The demo game clip's parameters. */
  const DemoType: string := "gameclips"
  const DemoXuid: string := "2535465515082324"
  const DemoScid: string := "d1adc8aa-0a31-4407-90f2-7e9b54b0347c"
  const DemoId: string := "388f97c0-17bc-4939-a592-d43c365acc48"

  /** `join(type, xuid, scid, id)` with `/` separators. */
  function DemoFilePath(): string {
    PathText.JoinWith([DemoType, DemoXuid, DemoScid, DemoId], "/")
  }

  /** One entry of `mapping`: the key and the text that replaces `{key}`. */
  datatype Placeholder = Placeholder(key: string, value: string)

  /** `mapping`, in declaration order. */
  function Mapping(appDomain: string): seq<Placeholder> {
    [ Placeholder("APP_DOMAIN", appDomain),
      Placeholder("IMAGE_URI", appDomain + "/ugc-proxy/" + DemoFilePath() + "/thumbnail-large.png"),
      Placeholder("VIDEO_URI", appDomain + "/ugc-proxy/" + DemoFilePath() + "/gameclip.mp4"),
      Placeholder("IMAGE_URI_WITH_REDIRECT", appDomain + "/ugc-redirect/" + DemoFilePath() + "/thumbnail-large.png"),
      Placeholder("VIDEO_URI_WITH_REDIRECT", appDomain + "/ugc-redirect/" + DemoFilePath() + "/gameclip.mp4") ]
  }

  /** The text the regular expression `\{KEY\}` matches. */
  function TokenOf(key: string): string {
    "{" + key + "}"
  }

  predicate OccursAt(s: string, pattern: string, i: int) {
    0 <= i && i + |pattern| <= |s| && s[i..i + |pattern|] == pattern
  }

  ghost predicate Occurs(s: string, pattern: string) {
    exists i :: OccursAt(s, pattern, i)
  }

  /**
   * `s.replace(new RegExp(pattern, 'g'), replacement)` for a literal pattern:
   * scanning left to right, each match is replaced and scanning resumes after it.
   */
  function ReplaceAll(s: string, pattern: string, replacement: string): (r: string)
    requires |pattern| > 0
    ensures |replacement| == |pattern| ==> |r| == |s|
    ensures replacement == pattern ==> r == s
    decreases |s|
  {
    if |s| < |pattern| then s
    else if s[..|pattern|] == pattern then replacement + ReplaceAll(s[|pattern|..], pattern, replacement)
    else [s[0]] + ReplaceAll(s[1..], pattern, replacement)
  }

  /** Applying the placeholders one after another. */
  function Substitute(data: string, mapping: seq<Placeholder>): (r: string)
    ensures (forall j :: 0 <= j < |mapping| ==> mapping[j].value == TokenOf(mapping[j].key)) ==> r == data
    decreases |mapping|
  {
    if mapping == [] then data
    else Substitute(ReplaceAll(data, TokenOf(mapping[0].key), mapping[0].value), mapping[1..])
  }

  /** `replacePlaceholders`: the `forEach` loop reassigning `data` once per key. */
  method ReplacePlaceholders(data: string, appDomain: string) returns (result: string)
    ensures result == Substitute(data, Mapping(appDomain))
  {
    var mapping := Mapping(appDomain);
    result := data;
    var i := 0;
    while i < |mapping|
      invariant 0 <= i <= |mapping|
      invariant Substitute(result, mapping[i..]) == Substitute(data, mapping)
    {
      assert mapping[i..][1..] == mapping[i + 1..];
      result := ReplaceAll(result, TokenOf(mapping[i].key), mapping[i].value);
      i := i + 1;
    }
    assert mapping[i..] == [];
  }

  /** A string in which the pattern does not occur is left as it is. */
  lemma {:induction false} ReplaceAllWithoutOccurrence(s: string, pattern: string, replacement: string)
    requires |pattern| > 0 && !Occurs(s, pattern)
    ensures ReplaceAll(s, pattern, replacement) == s
    decreases |s|
  {
    if |s| >= |pattern| {
      assert !OccursAt(s, pattern, 0);
      forall i | OccursAt(s[1..], pattern, i) ensures false {
        assert s[1..][i..i + |pattern|] == s[i + 1..i + 1 + |pattern|];
        assert OccursAt(s, pattern, i + 1);
      }
      ReplaceAllWithoutOccurrence(s[1..], pattern, replacement);
      assert [s[0]] + s[1..] == s;
    }
  }

  /** One step of the scan when the text starts with the pattern. */
  lemma ReplaceAllAtMatch(s: string, pattern: string, replacement: string)
    requires 0 < |pattern| <= |s| && s[..|pattern|] == pattern
    ensures ReplaceAll(s, pattern, replacement) == replacement + ReplaceAll(s[|pattern|..], pattern, replacement)
  {
  }

  /** One step of the scan when the text does not start with the pattern. */
  lemma ReplaceAllAtOther(s: string, pattern: string, replacement: string)
    requires 0 < |pattern| && 0 < |s| && !(|pattern| <= |s| && s[..|pattern|] == pattern)
    ensures ReplaceAll(s, pattern, replacement) == [s[0]] + ReplaceAll(s[1..], pattern, replacement)
  {
    if |s| < |pattern| {
      assert [s[0]] + s[1..] == s;
    }
  }

  /**
   * When the pattern's first character appears nowhere else in it (as `{` in
   * `{KEY}`), no match straddles an occurrence of the pattern, so the text on
   * either side is processed on its own.
   */
  lemma {:induction false} ReplaceAllAround(a: string, b: string, pattern: string, replacement: string)
    requires |pattern| > 0 && pattern[0] !in pattern[1..]
    ensures ReplaceAll(a + pattern + b, pattern, replacement)
            == ReplaceAll(a, pattern, replacement) + replacement + ReplaceAll(b, pattern, replacement)
    decreases |a|
  {
    var n := |pattern|;
    if a == [] {
      var s := a + pattern + b;
      assert s == pattern + b && s[..n] == pattern && s[n..] == b;
      ReplaceAllAtMatch(s, pattern, replacement);
    } else if n <= |a| && a[..n] == pattern {
      ReplaceAllAround(a[n..], b, pattern, replacement);
      AroundAfterMatch(a, b, pattern, replacement);
    } else {
      ReplaceAllAround(a[1..], b, pattern, replacement);
      AroundAfterOther(a, b, pattern, replacement);
    }
  }

  /** The inductive step of `ReplaceAllAround` when the text starts with the pattern. */
  lemma AroundAfterMatch(a: string, b: string, pattern: string, replacement: string)
    requires 0 < |pattern| <= |a| && a[..|pattern|] == pattern
    requires ReplaceAll(a[|pattern|..] + pattern + b, pattern, replacement)
             == ReplaceAll(a[|pattern|..], pattern, replacement) + replacement + ReplaceAll(b, pattern, replacement)
    ensures ReplaceAll(a + pattern + b, pattern, replacement)
            == ReplaceAll(a, pattern, replacement) + replacement + ReplaceAll(b, pattern, replacement)
  {
    var s, n := a + pattern + b, |pattern|;
    assert s[..n] == pattern;
    assert s[n..] == a[n..] + pattern + b;
    ReplaceAllAtMatch(s, pattern, replacement);
    ReplaceAllAtMatch(a, pattern, replacement);
    Regroup(replacement, ReplaceAll(a[n..], pattern, replacement), replacement, ReplaceAll(b, pattern, replacement));
  }

  /** The inductive step of `ReplaceAllAround` when the text does not start with the pattern. */
  lemma AroundAfterOther(a: string, b: string, pattern: string, replacement: string)
    requires 0 < |pattern| && pattern[0] !in pattern[1..]
    requires a != [] && !(|pattern| <= |a| && a[..|pattern|] == pattern)
    requires ReplaceAll(a[1..] + pattern + b, pattern, replacement)
             == ReplaceAll(a[1..], pattern, replacement) + replacement + ReplaceAll(b, pattern, replacement)
    ensures ReplaceAll(a + pattern + b, pattern, replacement)
            == ReplaceAll(a, pattern, replacement) + replacement + ReplaceAll(b, pattern, replacement)
  {
    NoMatchAtStart(a, b, pattern);
    FirstOfConcat(a, pattern, b);
    ReplaceAllAtOther(a + pattern + b, pattern, replacement);
    ReplaceAllAtOther(a, pattern, replacement);
    Regroup([a[0]], ReplaceAll(a[1..], pattern, replacement), replacement, ReplaceAll(b, pattern, replacement));
  }

  lemma FirstOfConcat(a: string, pattern: string, b: string)
    requires a != []
    ensures (a + pattern + b)[0] == a[0] && (a + pattern + b)[1..] == a[1..] + pattern + b
  {
  }

  lemma Regroup(x: string, y: string, z: string, w: string)
    ensures x + (y + z + w) == (x + y) + z + w
  {
  }

  lemma NoMatchAtStart(a: string, b: string, pattern: string)
    requires 0 < |pattern| && pattern[0] !in pattern[1..]
    requires a != [] && !(|pattern| <= |a| && a[..|pattern|] == pattern)
    ensures !(|pattern| <= |a + pattern + b| && (a + pattern + b)[..|pattern|] == pattern)
  {
    var s, n := a + pattern + b, |pattern|;
    if |a| < n {
      EarlyMatchImpossible(a, b, pattern);
    } else {
      assert s[..n] == a[..n];
    }
  }

  lemma EarlyMatchImpossible(a: string, b: string, pattern: string)
    requires 0 < |a| < |pattern| && pattern[0] !in pattern[1..]
    ensures (a + pattern + b)[..|pattern|] != pattern
  {
    var s := a + pattern + b;
    assert s[|a|] == pattern[0];
    assert pattern[1..][|a| - 1] == pattern[|a|];
  }

  /**
   * The global flag: every occurrence is replaced. A text made of
   * pattern-free pieces separated by the pattern becomes the same pieces
   * separated by the replacement.
   */
  lemma {:induction false} EveryOccurrenceReplaced(pieces: seq<string>, pattern: string, replacement: string)
    requires |pattern| > 0 && pattern[0] !in pattern[1..]
    requires forall i :: 0 <= i < |pieces| ==> !Occurs(pieces[i], pattern)
    ensures ReplaceAll(PathText.JoinWith(pieces, pattern), pattern, replacement) == PathText.JoinWith(pieces, replacement)
  {
    if |pieces| == 1 {
      ReplaceAllWithoutOccurrence(pieces[0], pattern, replacement);
    } else if |pieces| > 1 {
      EveryOccurrenceReplaced(pieces[1..], pattern, replacement);
      ReplaceAllAround(pieces[0], PathText.JoinWith(pieces[1..], pattern), pattern, replacement);
      ReplaceAllWithoutOccurrence(pieces[0], pattern, replacement);
    }
  }

  /** A template in which none of the tokens occurs comes back unchanged. */
  lemma {:induction false} SubstituteWithoutTokens(data: string, mapping: seq<Placeholder>)
    requires forall i :: 0 <= i < |mapping| ==> !Occurs(data, TokenOf(mapping[i].key))
    ensures Substitute(data, mapping) == data
  {
    if mapping != [] {
      ReplaceAllWithoutOccurrence(data, TokenOf(mapping[0].key), mapping[0].value);
      SubstituteWithoutTokens(data, mapping[1..]);
    }
  }

  lemma TemplateWithoutPlaceholdersUnchanged(data: string, appDomain: string)
    requires forall k :: k in ["APP_DOMAIN", "IMAGE_URI", "VIDEO_URI", "IMAGE_URI_WITH_REDIRECT", "VIDEO_URI_WITH_REDIRECT"]
                         ==> !Occurs(data, TokenOf(k))
    ensures Substitute(data, Mapping(appDomain)) == data
  {
    SubstituteWithoutTokens(data, Mapping(appDomain));
  }

  predicate BraceFree(key: string) {
    '{' !in key && '}' !in key
  }

  /**
   * Because the closing brace is part of each pattern, the token of one key
   * never occurs inside the token of another (`{IMAGE_URI}` is not found in
   * `{IMAGE_URI_WITH_REDIRECT}`).
   */
  lemma TokensDoNotOverlap(k1: string, k2: string)
    requires BraceFree(k1) && BraceFree(k2) && k1 != k2
    ensures !Occurs(TokenOf(k2), TokenOf(k1))
  {
    var t1, t2 := TokenOf(k1), TokenOf(k2);
    assert t1[1..|t1| - 1] == k1 && t2[1..|t2| - 1] == k2;
    forall i ensures !OccursAt(t2, t1, i) {
      if i < 0 || i + |t1| > |t2| {
      } else if i > 0 {
        assert t2[i..i + |t1|][0] == t2[i] != '{';
      } else if |k1| < |k2| {
        assert t2[..|t1|][|k1| + 1] == k2[|k1|] != '}';
      }
    }
  }

  /**
   * `new RegExp('\\{KEY\\}', 'g')`: every `{KEY}` of the template is replaced,
   * and nothing between them is touched.
   */
  lemma TokenReplacedEverywhere(pieces: seq<string>, key: string, value: string)
    requires BraceFree(key)
    requires forall i :: 0 <= i < |pieces| ==> !Occurs(pieces[i], TokenOf(key))
    ensures ReplaceAll(PathText.JoinWith(pieces, TokenOf(key)), TokenOf(key), value) == PathText.JoinWith(pieces, value)
  {
    var t := TokenOf(key);
    assert t[1..] == key + "}";
    EveryOccurrenceReplaced(pieces, t, value);
  }

  lemma ReplaceAllOfPattern(pattern: string, replacement: string)
    requires |pattern| > 0
    ensures ReplaceAll(pattern, pattern, replacement) == replacement
  {
    assert pattern[..|pattern|] == pattern && pattern[|pattern|..] == [];
  }

  /** The keys are processed in declaration order, `APP_DOMAIN` first: later keys apply to its replacement. */
  lemma AppDomainReplacedFirst(appDomain: string)
    ensures Mapping(appDomain)[0].key == "APP_DOMAIN"
    ensures Substitute(TokenOf("APP_DOMAIN"), Mapping(appDomain)) == Substitute(appDomain, Mapping(appDomain)[1..])
  {
    ReplaceAllOfPattern(TokenOf("APP_DOMAIN"), appDomain);
  }

  function DemoParameters(fileName: string): ProxyMiddleware.RequestParameters {
    ProxyMiddleware.RequestParameters(Some(DemoType), Some(DemoXuid), Some(DemoScid), Some(DemoId), Some(fileName))
  }

  /**
   * A URI path built as the player builds it, `/` + `join(type, xuid, scid, id)`
   * + `/` + file name, reaches the middleware under its mount point as a
   * path from which those five parameters are read back.
   */
  lemma FilePathParameters(fileType: string, xuid: string, scid: string, fileId: string, fileName: string)
    requires '/' !in fileType && '/' !in xuid && '/' !in scid && '/' !in fileId && '/' !in fileName
    ensures var path := "/" + PathText.JoinWith([fileType, xuid, scid, fileId], "/") + "/" + fileName;
      && path == PathText.JoinWith(["", fileType, xuid, scid, fileId, fileName], "/")
      && ProxyMiddleware.GetRequestParameters(path)
         == ProxyMiddleware.RequestParameters(Some(fileType), Some(xuid), Some(scid), Some(fileId), Some(fileName))
  {
    var pieces := [fileType, xuid, scid, fileId];
    var segments := pieces + [fileName];
    PathText.JoinWithAppend([""] + pieces, fileName, "/");
    assert PathText.JoinWith([""] + pieces, "/") == "" + "/" + PathText.JoinWith(pieces, "/");
    assert "" + "/" + PathText.JoinWith(pieces, "/") == "/" + PathText.JoinWith(pieces, "/");
    assert [""] + pieces + [fileName] == [""] + segments == ["", fileType, xuid, scid, fileId, fileName];
    ProxyMiddleware.JoinedPathParameters(fileType, xuid, scid, fileId, fileName);
  }

  /** The demo URIs carry the demo parameters to the middleware, mounted on `/ugc-proxy` or `/ugc-redirect`. */
  lemma DemoPathCarriesDemoParameters(fileName: string)
    requires '/' !in fileName
    ensures ProxyMiddleware.GetRequestParameters("/" + DemoFilePath() + "/" + fileName) == DemoParameters(fileName)
  {
    assert '/' !in DemoType && '/' !in DemoXuid;
    assert '/' !in DemoScid && '/' !in DemoId;
    FilePathParameters(DemoType, DemoXuid, DemoScid, DemoId, fileName);
  }

  /** The demo owner id is one the middleware accepts. */
  lemma DemoXuidValid()
    ensures MiddlewareUtils.IsValidXUID(Some(DemoXuid))
  {
    MiddlewareUtils.DemoXuids();
  }
}
