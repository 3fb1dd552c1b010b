/**
 * The URL dispatch of DownloadGpsTask.loadUrl: which kind of source a URL names,
 * the rewrite of user-trace and edit-trace URLs to the canonical trace data URL,
 * and the extraction of the bbox parameter from a trackpoints URL.
 *
 * The regular expressions of GpxUrlPattern are not part of this model: they are
 * represented by an uninterpreted "does pattern p match the whole URL" predicate
 * and an uninterpreted "text of capture group n" extractor.
 */
module SourceResolver {
  import opened GpsCommon

  datatype GpxUrlPattern =
    | TraceId | ExternalGpxScript | ExternalGpxFile | TaskingManager
    | UserTraceId | EditTraceId | TrackpointsBbox

  /** Matcher.matches() and Matcher.group(n) of the GpxUrlPattern regexes, left abstract. */
  datatype UrlPatterns = UrlPatterns(
    matches: (GpxUrlPattern, string) -> bool,
    group: (GpxUrlPattern, string, nat) -> string)

  /** The patterns whose URLs are rewritten, in the order they are tried. */
  const RewritePatterns: seq<GpxUrlPattern> := [UserTraceId, EditTraceId]

  /** The patterns whose URLs are fetched as they are. */
  const DirectPatterns: seq<GpxUrlPattern> := [TraceId, ExternalGpxScript, ExternalGpxFile, TaskingManager]

  const TraceUrlPrefix: string := "https://www.openstreetmap.org/trace/"
  const TraceUrlSuffix: string := "/data"

  /** The canonical URL of the data of the trace with the given id. */
  function TraceDataUrl(id: string): (url: string)
    ensures |url| == |TraceUrlPrefix| + |id| + |TraceUrlSuffix|
    ensures url[..|TraceUrlPrefix|] == TraceUrlPrefix
    ensures url[|TraceUrlPrefix|..|url| - |TraceUrlSuffix|] == id
    ensures url[|url| - |TraceUrlSuffix|..] == TraceUrlSuffix
  {
    TraceUrlPrefix + id + TraceUrlSuffix
  }

  /** Stream.anyMatch over a list of patterns. */
  predicate MatchesAny(p: UrlPatterns, pats: seq<GpxUrlPattern>, url: string)
  {
    exists i :: 0 <= i < |pats| && p.matches(pats[i], url)
  }

  /** Stream.filter(matches).findFirst() over a list of patterns: the position of the first pattern that matches. */
  function FirstMatching(p: UrlPatterns, pats: seq<GpxUrlPattern>, url: string): (r: Option<nat>)
    ensures r.Some? ==> r.value < |pats| && p.matches(pats[r.value], url)
    ensures r.Some? ==> forall j :: 0 <= j < r.value ==> !p.matches(pats[j], url)
    ensures r.None? <==> !MatchesAny(p, pats, url)
  {
    if |pats| == 0 then None
    else if p.matches(pats[0], url) then Some(0)
    else
      match FirstMatching(p, pats[1..], url)
      case None => None
      case Some(k) => Some(k + 1)
  }

  /**
   * The rewrite that loadUrl tries first: the canonical trace data URL built from
   * group 2 of the first of USER_TRACE_ID, EDIT_TRACE_ID that matches.
   */
  function MappedUrl(p: UrlPatterns, url: string): (r: Option<string>)
    ensures r.Some? <==> p.matches(UserTraceId, url) || p.matches(EditTraceId, url)
    ensures p.matches(UserTraceId, url) ==> r == Some(TraceDataUrl(p.group(UserTraceId, url, 2)))
    ensures !p.matches(UserTraceId, url) && p.matches(EditTraceId, url) ==>
              r == Some(TraceDataUrl(p.group(EditTraceId, url, 2)))
  {
    match FirstMatching(p, RewritePatterns, url)
    case None =>
      assert !p.matches(RewritePatterns[0], url) && !p.matches(RewritePatterns[1], url);
      None
    case Some(i) => Some(TraceDataUrl(p.group(RewritePatterns[i], url, 2)))
  }

  // ---------------------------------------------------------------------------
  // url.split("\\?|=|&", -1)

  predicate IsSeparator(c: char)
  {
    c == '?' || c == '=' || c == '&'
  }

  predicate NoSeparator(s: string)
  {
    forall k :: 0 <= k < |s| ==> !IsSeparator(s[k])
  }

  /**
   * String.split on '?', '=' and '&' with limit -1: every piece between two
   * separators is kept, leading and trailing empty pieces included, so there is
   * always at least one token (SplitJoin: one more than there are separators).
   */
  function Split(s: string): (tokens: seq<string>)
    ensures |tokens| >= 1
    decreases |s|
  {
    if |s| == 0 then [""]
    else
      var rest := Split(s[1..]);
      if IsSeparator(s[0]) then [""] + rest
      else Extend(s[0], rest)
  }

  /** Puts a character in front of the first token. */
  function Extend(x: char, tokens: seq<string>): (r: seq<string>)
    requires |tokens| >= 1
    ensures |r| == |tokens| && r[0] == [x] + tokens[0]
    ensures forall i :: 1 <= i < |r| ==> r[i] == tokens[i]
  {
    [[x] + tokens[0]] + tokens[1..]
  }

  /** No token holds a separator. */
  lemma {:induction false} SplitTokensHaveNoSeparator(s: string)
    ensures forall t :: 0 <= t < |Split(s)| ==> NoSeparator(Split(s)[t])
    decreases |s|
  {
    if |s| > 0 {
      SplitTokensHaveNoSeparator(s[1..]);
      var rest := Split(s[1..]);
      if !IsSeparator(s[0]) {
        var first := [s[0]] + rest[0];
        assert forall k :: 1 <= k < |first| ==> first[k] == rest[0][k - 1];
        assert NoSeparator(first);
      }
    }
  }

  /** The separator characters of s, in order. */
  function Separators(s: string): seq<char>
    decreases |s|
  {
    if |s| == 0 then []
    else (if IsSeparator(s[0]) then [s[0]] else []) + Separators(s[1..])
  }

  /** Puts the separators back between the tokens. */
  function Join(tokens: seq<string>, seps: seq<char>): string
    requires |tokens| == |seps| + 1
    decreases |seps|
  {
    if |seps| == 0 then tokens[0]
    else tokens[0] + [seps[0]] + Join(tokens[1..], seps[1..])
  }

  /** Splitting loses nothing: the tokens and the separators rebuild the URL. */
  lemma {:induction false} SplitJoin(s: string)
    ensures |Split(s)| == |Separators(s)| + 1
    ensures Join(Split(s), Separators(s)) == s
    decreases |s|
  {
    if |s| > 0 {
      var x, t := s[0], s[1..];
      assert s == [x] + t;
      SplitJoin(t);
      SplitCons(x, t);
      if IsSeparator(x) {
        assert Separators(s) == [x] + Separators(t);
        JoinCons("", Split(t), x, Separators(t));
      } else {
        assert Separators(s) == Separators(t);
        JoinExtend(x, Split(t), Separators(t));
      }
    }
  }

  /** Join of a token list given by its first token and separator. */
  lemma JoinCons(token: string, tokens: seq<string>, sep: char, seps: seq<char>)
    requires |tokens| == |seps| + 1
    ensures Join([token] + tokens, [sep] + seps) == token + [sep] + Join(tokens, seps)
  {
    assert ([token] + tokens)[1..] == tokens;
    assert ([sep] + seps)[1..] == seps;
  }

  /** Extending the first token extends the joined string by the same character. */
  lemma JoinExtend(x: char, tokens: seq<string>, seps: seq<char>)
    requires |tokens| == |seps| + 1
    ensures Join(Extend(x, tokens), seps) == [x] + Join(tokens, seps)
  {
    var e := Extend(x, tokens);
    if |seps| > 0 {
      assert e[1..] == tokens[1..];
      assert Join(e, seps) == ([x] + tokens[0]) + [seps[0]] + Join(tokens[1..], seps[1..]);
    }
  }

  /** A string without separators is a single token. */
  lemma {:induction false} SplitWithoutSeparator(s: string)
    requires NoSeparator(s)
    ensures Split(s) == [s]
    decreases |s|
  {
    if |s| > 0 {
      SplitWithoutSeparator(s[1..]);
      assert s == [s[0]] + s[1..];
    }
  }

  /** Split of a string given by its first character and the rest. */
  lemma SplitCons(x: char, t: string)
    ensures Split([x] + t) == if IsSeparator(x) then [""] + Split(t) else Extend(x, Split(t))
  {
    assert ([x] + t)[0] == x;
    assert ([x] + t)[1..] == t;
  }

  /** A leading separator starts a new, empty token. */
  lemma SplitConsSeparator(x: char, t: string)
    requires IsSeparator(x)
    ensures Split([x] + t) == [""] + Split(t)
  {
    assert ([x] + t)[0] == x;
    assert ([x] + t)[1..] == t;
  }

  /** Splitting at a separator splits the token list at the same place. */
  lemma {:induction false} SplitConcat(a: string, c: char, b: string)
    requires IsSeparator(c)
    ensures Split(a + [c] + b) == Split(a) + Split(b)
    decreases |a|
  {
    if |a| == 0 {
      assert a + [c] + b == [c] + b;
      SplitCons(c, b);
    } else {
      var t := a[1..];
      assert a == [a[0]] + t;
      assert a + [c] + b == [a[0]] + (t + [c] + b);
      SplitConcat(t, c, b);
      SplitConcatStep(a[0], t + [c] + b, t, Split(b));
    }
  }

  /** One step of the induction above: a leading character acts on both sides alike. */
  lemma SplitConcatStep(x: char, r: string, t: string, right: seq<string>)
    requires Split(r) == Split(t) + right
    ensures Split([x] + r) == Split([x] + t) + right
  {
    if IsSeparator(x) {
      SeparatorStep(x, r, t, right);
    } else {
      NonSeparatorStep(x, r, t, right);
    }
  }

  /** The step when the leading character is a separator. */
  lemma SeparatorStep(x: char, r: string, t: string, right: seq<string>)
    requires IsSeparator(x) && Split(r) == Split(t) + right
    ensures Split([x] + r) == Split([x] + t) + right
  {
    SplitConsSeparator(x, r);
    SplitConsSeparator(x, t);
    ConsAssociates("", Split(t), right);
  }

  /** Putting an element in front of a concatenation. */
  lemma ConsAssociates<T>(h: T, left: seq<T>, right: seq<T>)
    ensures [h] + (left + right) == ([h] + left) + right
  {
  }

  /** The step when the leading character extends the first token. */
  lemma NonSeparatorStep(x: char, r: string, t: string, right: seq<string>)
    requires !IsSeparator(x) && Split(r) == Split(t) + right
    ensures Split([x] + r) == Split([x] + t) + right
  {
    SplitCons(x, r);
    SplitCons(x, t);
    PrependToFirst(x, Split(t), right);
  }

  /** Prefixing the first token of a concatenation prefixes the first token of its left part. */
  lemma PrependToFirst(x: char, left: seq<string>, right: seq<string>)
    requires |left| >= 1
    ensures Extend(x, left + right) == Extend(x, left) + right
  {
    assert (left + right)[0] == left[0];
    assert (left + right)[1..] == left[1..] + right;
  }

  // ---------------------------------------------------------------------------
  // The scan of the token table for the bbox parameter

  /** Position i holds the first "bbox" token, and a token follows it. */
  predicate FirstUsableBBox(tokens: seq<string>, i: int)
  {
    && 0 <= i < |tokens| - 1
    && tokens[i] == "bbox"
    && forall j :: 0 <= j < i ==> tokens[j] != "bbox"
  }

  /**
   * The bounds string of a trackpoints URL's token table: the token right after
   * the first "bbox" token that is not the last token; none when every "bbox"
   * token is the last one.
   */
  function BBoxValue(tokens: seq<string>): (r: Option<string>)
    ensures r.None? <==> forall i :: 0 <= i < |tokens| - 1 ==> tokens[i] != "bbox"
    ensures forall i :: FirstUsableBBox(tokens, i) ==> r == Some(tokens[i + 1])
  {
    if |tokens| < 2 then None
    else if tokens[0] == "bbox" then Some(tokens[1])
    else
      var r := BBoxValue(tokens[1..]);
      assert forall i :: FirstUsableBBox(tokens, i) ==> FirstUsableBBox(tokens[1..], i - 1);
      r
  }

  /** The indexed loop of loadUrl over the split URL. */
  method ScanForBBox(table: seq<string>) returns (r: Option<string>)
    ensures r == BBoxValue(table)
  {
    for i := 0 to |table|
      invariant forall j :: 0 <= j < i && j < |table| - 1 ==> table[j] != "bbox"
    {
      if table[i] == "bbox" && i < |table| - 1 {
        assert FirstUsableBBox(table, i);
        return Some(table[i + 1]);
      }
    }
    return None;
  }

  /** Tokens that are not "bbox" in front of the table do not change the scan. */
  lemma {:induction false} BBoxValueSkipsPrefix(a: seq<string>, b: seq<string>)
    requires forall k :: 0 <= k < |a| ==> a[k] != "bbox"
    ensures BBoxValue(a + b) == BBoxValue(b)
    decreases |a|
  {
    if |a| == 0 {
      assert a + b == b;
    } else {
      assert (a + b)[1..] == a[1..] + b;
      BBoxValueSkipsPrefix(a[1..], b);
      assert (a + b)[0] == a[0];
      if |a + b| < 2 {
        assert b == [];
      }
    }
  }

  /**
   * A query "?bbox=" + value after a part without a bbox token gives the first
   * token of value: the whole value when it holds no separator, and the empty
   * string when the URL ends in "bbox=".
   */
  lemma BBoxOfQuery(prefix: string, value: string)
    requires forall k :: 0 <= k < |Split(prefix)| ==> Split(prefix)[k] != "bbox"
    ensures BBoxValue(Split(prefix + "?bbox=" + value)) == Some(Split(value)[0])
    ensures NoSeparator(value) ==> BBoxValue(Split(prefix + "?bbox=" + value)) == Some(value)
    ensures value == "" ==> BBoxValue(Split(prefix + "?bbox=" + value)) == Some("")
  {
    SplitOfBBoxQuery(prefix, value);
    var tail := ["bbox"] + Split(value);
    BBoxValueSkipsPrefix(Split(prefix), tail);
    assert BBoxValue(tail) == Some(Split(value)[0]);
    if NoSeparator(value) {
      SplitWithoutSeparator(value);
    }
  }

  /**
   * The scan looks at tokens, not at keys: a parameter whose value is "bbox",
   * placed in front of the bbox parameter, makes the key "bbox" itself the bounds.
   */
  lemma BBoxValueBeforeKey(prefix: string, key: string, value: string)
    requires forall k :: 0 <= k < |Split(prefix)| ==> Split(prefix)[k] != "bbox"
    requires NoSeparator(key) && key != "bbox"
    ensures BBoxValue(Split(prefix + "?" + key + "=bbox&bbox=" + value)) == Some("bbox")
  {
    var url := prefix + "?" + key + "=bbox&bbox=" + value;
    assert url == prefix + ['?'] + (key + ['='] + ("bbox" + ['&'] + ("bbox" + ['='] + value)));
    SplitConcat(prefix, '?', key + ['='] + ("bbox" + ['&'] + ("bbox" + ['='] + value)));
    SplitConcat(key, '=', "bbox" + ['&'] + ("bbox" + ['='] + value));
    SplitConcat("bbox", '&', "bbox" + ['='] + value);
    SplitConcat("bbox", '=', value);
    BBoxIsOneToken();
    SplitWithoutSeparator(key);
    var tail := [key] + (["bbox"] + (["bbox"] + Split(value)));
    assert Split(url) == Split(prefix) + tail;
    BBoxValueSkipsPrefix(Split(prefix), tail);
    BBoxValueSkipsPrefix([key], ["bbox"] + (["bbox"] + Split(value)));
  }

  /** The tokens of a query ending in "?bbox=" followed by a value. */
  lemma SplitOfBBoxQuery(prefix: string, value: string)
    ensures Split(prefix + "?bbox=" + value) == Split(prefix) + (["bbox"] + Split(value))
  {
    assert prefix + "?bbox=" + value == prefix + ['?'] + ("bbox" + ['='] + value);
    SplitConcat(prefix, '?', "bbox" + ['='] + value);
    SplitConcat("bbox", '=', value);
    BBoxIsOneToken();
  }

  /** The key "bbox" is a single token. */
  lemma BBoxIsOneToken()
    ensures Split("bbox") == ["bbox"]
  {
    assert NoSeparator("bbox");
    SplitWithoutSeparator("bbox");
  }

  /** A "bbox" token with nothing after it yields no bounds. */
  lemma BBoxAsFinalToken(prefix: string)
    requires forall k :: 0 <= k < |Split(prefix)| ==> Split(prefix)[k] != "bbox"
    ensures BBoxValue(Split(prefix + "?bbox")) == None
  {
    SplitOfBBoxKey(prefix);
    BBoxValueSkipsPrefix(Split(prefix), ["bbox"]);
  }

  /** The tokens of a query ending in "?bbox". */
  lemma SplitOfBBoxKey(prefix: string)
    ensures Split(prefix + "?bbox") == Split(prefix) + ["bbox"]
  {
    assert prefix + "?bbox" == prefix + ['?'] + "bbox";
    SplitConcat(prefix, '?', "bbox");
    BBoxIsOneToken();
  }

  // ---------------------------------------------------------------------------
  // Dispatch

  /** What loadUrl decides for one URL, before following a rewrite. */
  datatype Descriptor =
    | Rewritten(url: string)     // dispatched again with this URL
    | FetchUrl(url: string)      // an OsmServerLocationReader on the URL
    | FetchBBox(bounds: string)  // a BoundingBoxDownloader on these bounds
    | NotRecognised              // loadUrl returns null

  /** One step of loadUrl: rewrite first, then the direct-fetch patterns, then TRACKPOINTS_BBOX. */
  function Classify(p: UrlPatterns, url: string): (d: Descriptor)
    ensures d.Rewritten? <==> p.matches(UserTraceId, url) || p.matches(EditTraceId, url)
    ensures d.Rewritten? ==> Some(d.url) == MappedUrl(p, url)
    ensures d.FetchUrl? <==> !d.Rewritten? && MatchesAny(p, DirectPatterns, url)
    ensures d.FetchUrl? ==> d.url == url
    ensures d.FetchBBox? <==>
              && !d.Rewritten? && !MatchesAny(p, DirectPatterns, url)
              && p.matches(TrackpointsBbox, url) && BBoxValue(Split(url)).Some?
    ensures d.FetchBBox? ==> Some(d.bounds) == BBoxValue(Split(url))
  {
    match MappedUrl(p, url)
    case Some(mapped) => Rewritten(mapped)
    case None =>
      if MatchesAny(p, DirectPatterns, url) then FetchUrl(url)
      else if p.matches(TrackpointsBbox, url) then
        match BBoxValue(Split(url))
        case Some(bounds) => FetchBBox(bounds)
        case None => NotRecognised
      else NotRecognised
  }

  /**
   * A URL that a rewrite produces is not rewritten again, so loadUrl calls
   * itself at most once.
   */
  ghost predicate RewriteIsFinal(p: UrlPatterns)
  {
    forall u :: MappedUrl(p, u).Some? ==> MappedUrl(p, MappedUrl(p, u).value).None?
  }

  /** The URL loadUrl finally works on (and stores in its url field). */
  function FinalUrl(p: UrlPatterns, url: string): (r: string)
    ensures !p.matches(UserTraceId, url) && !p.matches(EditTraceId, url) ==> r == url
    ensures p.matches(UserTraceId, url) ==> r == TraceDataUrl(p.group(UserTraceId, url, 2))
    ensures !p.matches(UserTraceId, url) && p.matches(EditTraceId, url) ==>
              r == TraceDataUrl(p.group(EditTraceId, url, 2))
  {
    match MappedUrl(p, url)
    case Some(mapped) => mapped
    case None => url
  }

  /** loadUrl with its rewrite followed: what it fetches, or that it returns null. */
  function Resolve(p: UrlPatterns, url: string): (d: Descriptor)
    requires RewriteIsFinal(p)
    ensures !d.Rewritten?
    ensures d == Classify(p, FinalUrl(p, url))
  {
    match Classify(p, url)
    case Rewritten(mapped) => Classify(p, mapped)
    case other => other
  }

  /**
   * A user-trace or edit-trace URL resolves exactly as its canonical trace data
   * URL does, and resolving the URL loadUrl ends at gives the same answer again.
   */
  lemma ResolveFollowsRewrite(p: UrlPatterns, url: string)
    requires RewriteIsFinal(p)
    ensures MappedUrl(p, url).Some? ==> Resolve(p, url) == Resolve(p, MappedUrl(p, url).value)
    ensures Resolve(p, FinalUrl(p, url)) == Resolve(p, url)
    ensures FinalUrl(p, FinalUrl(p, url)) == FinalUrl(p, url)
  {
    if MappedUrl(p, url).Some? {
      var m := MappedUrl(p, url).value;
      assert MappedUrl(p, m).None?;
    }
  }

  /** A URL recognised by no pattern resolves to nothing: loadUrl returns null. */
  lemma UnmatchedUrlNotRecognised(p: UrlPatterns, url: string)
    requires RewriteIsFinal(p)
    requires forall pat :: !p.matches(pat, url)
    ensures Resolve(p, url) == NotRecognised
  {
    assert !MatchesAny(p, DirectPatterns, url);
  }

  /**
   * A trackpoints URL whose query is "?bbox=" + value, recognised by no earlier
   * pattern, is fetched by the bounds string that value starts with; ending the
   * URL at "?bbox" instead leaves it unrecognised.
   */
  lemma TrackpointsQuery(p: UrlPatterns, prefix: string, value: string)
    requires RewriteIsFinal(p)
    requires forall k :: 0 <= k < |Split(prefix)| ==> Split(prefix)[k] != "bbox"
    requires forall pat :: pat != TrackpointsBbox ==> !p.matches(pat, prefix + "?bbox=" + value)
    requires forall pat :: pat != TrackpointsBbox ==> !p.matches(pat, prefix + "?bbox")
    ensures p.matches(TrackpointsBbox, prefix + "?bbox=" + value) ==>
              Resolve(p, prefix + "?bbox=" + value) == FetchBBox(Split(value)[0])
    ensures Resolve(p, prefix + "?bbox") == NotRecognised
  {
    BBoxOfQuery(prefix, value);
    BBoxAsFinalToken(prefix);
    ResolveTrackpoints(p, prefix + "?bbox=" + value);
    ResolveTrackpoints(p, prefix + "?bbox");
  }

  /** A URL that only TRACKPOINTS_BBOX may match resolves by the scan of its tokens. */
  lemma ResolveTrackpoints(p: UrlPatterns, url: string)
    requires RewriteIsFinal(p)
    requires forall pat :: pat != TrackpointsBbox ==> !p.matches(pat, url)
    ensures p.matches(TrackpointsBbox, url) && BBoxValue(Split(url)).Some? ==>
              Resolve(p, url) == FetchBBox(BBoxValue(Split(url)).value)
    ensures BBoxValue(Split(url)).None? ==> Resolve(p, url) == NotRecognised
  {
    assert !MatchesAny(p, DirectPatterns, url);
  }
}
