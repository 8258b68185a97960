/**
 * The video library of the benefits-video site
 * (apps/mybenefitsvideos/src/lib/vimeo.ts): the catalogue of example videos,
 * Vimeo id extraction from a URL, embed URLs with player options, lookups by
 * service type and category, the featured selection and the duration label.
 */
module Vimeo {
  import opened Wrappers
  import opened Seqs
  import opened Strings
  import opened UrlPatterns
  import opened JsNum

  /** `vimeo\.com\/` */
  const Host := "vimeo.com/"

  /** `player\.vimeo\.com\/video\/` */
  const PlayerHost := "player." + Host + "video/"

  /** Every embed URL starts with this. */
  const PlayerBase := "https://player.vimeo.com/video/"

  /**
   * `extractVimeoId` as written: `/vimeo\.com\/(\d+)/`, then the greedy
   * `/vimeo\.com\/.*\/(\d+)/`, then `/player\.vimeo\.com\/video\/(\d+)/`;
   * the first that matches gives its group.
   */
  function ExtractVimeoIdAsWritten(url: string): (r: Option<string>)
    ensures r.Some? ==> |r.value| > 0 && AllDigits(r.value)
    ensures r.None? ==> forall i: nat :: !LitDigitAt(url, Host, i) && !LitDigitAt(url, PlayerHost, i)
  {
    match LitDigits(url, Host)
    case Some(id) => Some(id)
    case None =>
      match SpanDigits(url, Host, "/", true)
      case Some(id) => Some(id)
      case None => LitDigits(url, PlayerHost)
  }

  /**
   * `extractVimeoId` with the middle pattern lazy (`/vimeo\.com\/.*?\/(\d+)/`):
   * the first digit segment after the host, which is the video id also in
   * review links that end in a hash.
   */
  function ExtractVimeoId(url: string): (r: Option<string>)
    ensures r.Some? ==> |r.value| > 0 && AllDigits(r.value)
    ensures r.None? ==> forall i: nat :: !LitDigitAt(url, Host, i) && !LitDigitAt(url, PlayerHost, i)
  {
    match LitDigits(url, Host)
    case Some(id) => Some(id)
    case None =>
      match SpanDigits(url, Host, "/", false)
      case Some(id) => Some(id)
      case None => LitDigits(url, PlayerHost)
  }

  /**
   * The player pattern never decides: wherever it matches, the middle
   * pattern matches too (the host sits seven characters in, "/video/"
   * supplies the slash).
   */
  lemma PlayerPatternSubsumed(url: string, greedy: bool)
    requires LitDigits(url, PlayerHost).Some?
    ensures SpanDigits(url, Host, "/", greedy).Some?
  {
    var i: nat :| LitDigitAt(url, PlayerHost, i);
    PlayerMatchIsSpan(url, i);
    assert SpanCapture(url, Host, "/", greedy, i + 7).Some?;
  }

  lemma PlayerHostParts()
    ensures PlayerHost[7..17] == Host && PlayerHost[22..23] == "/"
  {
    assert |PlayerHost| == 23;
    forall k | 0 <= k < 10
      ensures PlayerHost[7..17][k] == Host[k]
    {
      assert PlayerHost[7 + k] == Host[k];
    }
    assert PlayerHost[22] == "video/"[5];
  }

  lemma SliceWithin(s: string, i: nat, w: string, a: nat, b: nat)
    requires i + |w| <= |s| && w == s[i..i + |w|] && a <= b <= |w|
    ensures s[i + a..i + b] == w[a..b]
  {
    forall k | 0 <= k < b - a
      ensures s[i + a..i + b][k] == w[a..b][k]
    {
      assert w[a + k] == s[i + a + k];
    }
  }

  lemma PlayerMatchIsSpan(url: string, i: nat)
    requires LitDigitAt(url, PlayerHost, i)
    ensures SpanAt(url, Host, "/", i + 7, i + 22)
  {
    var w := url[i..i + 23];
    assert w == PlayerHost;
    PlayerHostParts();
    assert url[i + 7..i + 17] == Host by {
      SliceWithin(url, i, w, 7, 17);
    }
    assert url[i + 22..i + 23] == "/" by {
      SliceWithin(url, i, w, 22, 23);
    }
    forall m | i + 17 <= m < i + 23
      ensures !IsLineTerminator(url[m])
    {
      assert url[m] == w[m - i];
    }
  }

  /** What may follow the id in a player URL: nothing, or a query that holds no '.', '/' or line break and does not continue the digits. */
  predicate QuietTail(tail: string)
  {
    NoneOf(tail, '.') && NoneOf(tail, '/') && NoLineTerminator(tail) && (|tail| == 0 || !IsDigit(tail[0]))
  }

  lemma PlayerUrlChars(id: string, tail: string)
    requires AllDigits(id) && QuietTail(tail)
    ensures var s := PlayerBase + id + tail;
      && NoLineTerminator(s)
      && (forall k :: 0 <= k < |s| && s[k] == '.' ==> k == 14 || k == 20)
      && (forall k :: 0 <= k < |s| && s[k] == '/' ==> k == 6 || k == 7 || k == 24 || k == 30)
  {
    var s := PlayerBase + id + tail;
    assert |PlayerBase| == 31;
    forall k | 0 <= k < |s|
      ensures !IsLineTerminator(s[k])
      ensures s[k] != '.' || k == 14 || k == 20
      ensures s[k] != '/' || k == 6 || k == 7 || k == 24 || k == 30
    {
      if k < 31 {
        assert s[k] == PlayerBase[k];
      } else if k < 31 + |id| {
        assert s[k] == id[k - 31];
      } else {
        assert s[k] == tail[k - 31 - |id|];
      }
    }
  }

  /** In a player URL the host occurs once, at 15, followed by 'v'. */
  lemma PlayerUrlHost(id: string, tail: string)
    requires AllDigits(id) && QuietTail(tail)
    ensures var s := PlayerBase + id + tail;
      && (forall i :: OccursAt(s, Host, i) <==> i == 15)
      && s[25] == 'v'
  {
    var s := PlayerBase + id + tail;
    PlayerUrlChars(id, tail);
    forall i | OccursAt(s, Host, i)
      ensures i == 15
    {
      OccursAtChar(s, Host, i, 5);
      OccursAtChar(s, Host, i, 9);
    }
    assert s[..31] == PlayerBase;
    assert s[15..25] == PlayerBase[15..25] == Host;
    assert s[25] == PlayerBase[25];
  }

  /** In a player URL the middle pattern, greedy or lazy, captures the id. */
  lemma PlayerUrlSpan(id: string, tail: string, greedy: bool)
    requires |id| > 0 && AllDigits(id) && QuietTail(tail)
    ensures SpanDigits(PlayerBase + id + tail, Host, "/", greedy) == Some(id)
  {
    var s := PlayerBase + id + tail;
    PlayerUrlChars(id, tail);
    PlayerUrlHost(id, tail);
    assert LineEnd(s, 25) == |s|;
    assert s[..31] == PlayerBase;
    assert s[30..31] == "/";
    assert s[31..31 + |id|] == id;
    assert SpanAt(s, Host, "/", 15, 30);
    forall j | SpanAt(s, Host, "/", 15, j)
      ensures j == 30
    {
      OccursAtChar(s, "/", j, 0);
    }
    assert SpanEnd(s, Host, "/", greedy, 15) == Some(30);
    DigitRunIs(s, 31, id);
    assert SpanCapture(s, Host, "/", greedy, 15) == Some(id);
    forall i: nat | i != 15
      ensures SpanCapture(s, Host, "/", greedy, i).None?
    {
      assert SpanEnd(s, Host, "/", greedy, i).None?;
    }
  }

  /**
   * Embed URLs and their query strings round-trip: from `PlayerBase + id`
   * followed by a quiet tail, both versions of the extraction give back the id.
   */
  lemma PlayerUrlRoundTrip(id: string, tail: string)
    requires |id| > 0 && AllDigits(id) && QuietTail(tail)
    ensures ExtractVimeoIdAsWritten(PlayerBase + id + tail) == Some(id)
    ensures ExtractVimeoId(PlayerBase + id + tail) == Some(id)
  {
    var s := PlayerBase + id + tail;
    PlayerUrlHost(id, tail);
    assert forall i: nat :: !LitDigitAt(s, Host, i);
    PlayerUrlSpan(id, tail, true);
    PlayerUrlSpan(id, tail, false);
  }

  /** Private review links: the id, then a hash. */
  const ReviewBase := "https://vimeo.com/mojosolo/review/"

  function ReviewUrl(id: string, hash: string): string
  {
    ReviewBase + id + "/" + hash
  }

  lemma ReviewUrlChars(id: string, hash: string)
    requires AllDigits(id) && NoneOf(hash, '.') && NoneOf(hash, '/') && NoLineTerminator(hash)
    ensures var s := ReviewUrl(id, hash);
      && NoLineTerminator(s)
      && (forall k :: 0 <= k < |s| && s[k] == '.' ==> k == 13)
      && (forall k :: 0 <= k < |s| && s[k] == '/' ==> k == 6 || k == 7 || k == 17 || k == 26 || k == 33 || k == 34 + |id|)
      && s[18] == 'm' && s[27] == 'r'
  {
    var s := ReviewUrl(id, hash);
    assert |ReviewBase| == 34;
    forall k | 0 <= k < |s|
      ensures !IsLineTerminator(s[k])
      ensures s[k] != '.' || k == 13
      ensures s[k] != '/' || k == 6 || k == 7 || k == 17 || k == 26 || k == 33 || k == 34 + |id|
    {
      if k < 34 {
        assert s[k] == ReviewBase[k];
      } else if k < 34 + |id| {
        assert s[k] == id[k - 34];
      } else if k == 34 + |id| {
        assert s[k] == '/';
      } else {
        assert s[k] == hash[k - 35 - |id|];
      }
    }
    assert s[18] == ReviewBase[18];
    assert s[27] == ReviewBase[27];
  }

  /**
   * In a review link the host occurs once, at 8, and the middle pattern can
   * end at the slash before the id or at the slash before the hash when the
   * hash starts with a digit.
   */
  lemma ReviewUrlSpans(id: string, hash: string)
    requires |id| > 0 && AllDigits(id) && NoneOf(hash, '.') && NoneOf(hash, '/') && NoLineTerminator(hash)
    ensures var s := ReviewUrl(id, hash);
      && (forall i: nat :: !LitDigitAt(s, Host, i))
      && (forall i, j :: i != 8 ==> !SpanAt(s, Host, "/", i, j))
      && (forall j :: SpanAt(s, Host, "/", 8, j) <==> j == 33 || (j == 34 + |id| && |hash| > 0 && IsDigit(hash[0])))
  {
    var s := ReviewUrl(id, hash);
    ReviewUrlChars(id, hash);
    forall i | OccursAt(s, Host, i)
      ensures i == 8
    {
      OccursAtChar(s, Host, i, 5);
    }
    forall k | 0 <= k < 10
      ensures s[8..18][k] == Host[k]
    {
      assert s[8 + k] == ReviewBase[8 + k];
    }
    assert LineEnd(s, 18) == |s|;
    assert s[33..34] == "/" && s[34] == id[0];
    assert s[34 + |id|..35 + |id|] == "/";
    assert |hash| > 0 ==> s[35 + |id|] == hash[0];
    forall j | SpanAt(s, Host, "/", 8, j)
      ensures j == 33 || j == 34 + |id|
    {
      OccursAtChar(s, "/", j, 0);
    }
  }

  /** Where the middle pattern ends in a review link: lazily before the id, greedily before a hash that starts with a digit. */
  lemma ReviewUrlSpanEnd(id: string, hash: string, greedy: bool)
    requires |id| > 0 && AllDigits(id) && NoneOf(hash, '.') && NoneOf(hash, '/') && NoLineTerminator(hash)
    ensures SpanEnd(ReviewUrl(id, hash), Host, "/", greedy, 8)
      == Some(if greedy && |hash| > 0 && IsDigit(hash[0]) then 34 + |id| else 33)
    ensures forall i: nat :: i != 8 ==> SpanCapture(ReviewUrl(id, hash), Host, "/", greedy, i).None?
    ensures forall i: nat :: !LitDigitAt(ReviewUrl(id, hash), Host, i)
  {
    var s := ReviewUrl(id, hash);
    ReviewUrlSpans(id, hash);
    assert SpanAt(s, Host, "/", 8, 33);
    if greedy && |hash| > 0 && IsDigit(hash[0]) {
      assert SpanAt(s, Host, "/", 8, 34 + |id|);
    }
    var e := SpanEnd(s, Host, "/", greedy, 8);
    assert e == Some(33) || e == Some(34 + |id|);
    forall i: nat | i != 8
      ensures SpanCapture(s, Host, "/", greedy, i).None?
    {
      assert SpanEnd(s, Host, "/", greedy, i).None?;
    }
  }

  /** The digits after the review path are the id. */
  lemma ReviewUrlIdRun(id: string, hash: string)
    requires AllDigits(id)
    ensures DigitRun(ReviewUrl(id, hash), 34) == id
  {
    var s := ReviewUrl(id, hash);
    assert s[34..34 + |id|] == id && s[34 + |id|] == '/';
    DigitRunIs(s, 34, id);
  }

  /** The digits after the slash that follows the id are the hash's leading digits. */
  lemma ReviewUrlHashRun(id: string, lead: string, rest: string)
    requires AllDigits(lead) && (|rest| == 0 || !IsDigit(rest[0]))
    ensures DigitRun(ReviewUrl(id, lead + rest), 35 + |id|) == lead
  {
    DigitRunAfter(ReviewBase + id + "/", lead, rest);
  }

  /** The corrected extraction reads the id from a review link whatever the hash. */
  lemma ReviewUrlLazy(id: string, hash: string)
    requires |id| > 0 && AllDigits(id) && NoneOf(hash, '.') && NoneOf(hash, '/') && NoLineTerminator(hash)
    ensures ExtractVimeoId(ReviewUrl(id, hash)) == Some(id)
  {
    var s := ReviewUrl(id, hash);
    assert LitDigits(s, Host).None? && SpanDigits(s, Host, "/", false) == Some(id) by {
      ReviewUrlSpanEnd(id, hash, false);
      ReviewUrlIdRun(id, hash);
      SpanDigitsAt(s, Host, "/", false, 8, id);
    }
  }

  /**
   * As written, the greedy middle pattern reads a review link's hash instead
   * of its id whenever the hash starts with a digit: it returns the hash's
   * leading digits `lead`.
   */
  lemma ReviewUrlGreedy(id: string, lead: string, rest: string)
    requires |id| > 0 && AllDigits(id) && AllDigits(lead)
    requires |rest| == 0 || !IsDigit(rest[0])
    requires var hash := lead + rest; NoneOf(hash, '.') && NoneOf(hash, '/') && NoLineTerminator(hash)
    ensures ExtractVimeoIdAsWritten(ReviewUrl(id, lead + rest)) == if |lead| > 0 then Some(lead) else Some(id)
  {
    var hash := lead + rest;
    ReviewUrlSpanEnd(id, hash, true);
    if |lead| > 0 {
      assert hash[0] == lead[0];
      ReviewUrlHashRun(id, lead, rest);
      SpanDigitsAt(ReviewUrl(id, hash), Host, "/", true, 8, lead);
    } else {
      assert hash == rest;
      ReviewUrlIdRun(id, hash);
      SpanDigitsAt(ReviewUrl(id, hash), Host, "/", true, 8, id);
    }
  }

  /**
   * The catalogue's fourth entry, id 693745318 with hash 145fbe1647: the
   * extraction as written yields "145"; the corrected one yields the id.
   */
  lemma GreedyReadsHash()
    ensures ExtractVimeoIdAsWritten(ReviewUrl("693745318", "145fbe1647")) == Some("145")
    ensures ExtractVimeoId(ReviewUrl("693745318", "145fbe1647")) == Some("693745318")
  {
    assert "145fbe1647" == "145" + "fbe1647";
    ReviewUrlGreedy("693745318", "145", "fbe1647");
    ReviewUrlLazy("693745318", "145fbe1647");
  }

  // Embed URLs

  /** The player options; an absent option is `None`. */
  datatype EmbedOptions = EmbedOptions(autoplay: Option<bool>, muted: Option<bool>, loop: Option<bool>, controls: Option<bool>)

  /** The query parameters the embed URL can carry. */
  datatype Param = Autoplay | Muted | Loop | Controls | Responsive | Quality

  function ParamName(p: Param): string
  {
    match p
    case Autoplay => "autoplay"
    case Muted => "muted"
    case Loop => "loop"
    case Controls => "controls"
    case Responsive => "responsive"
    case Quality => "quality"
  }

  /** Controls is only ever set off, quality to automatic, the rest on. */
  function ParamValue(p: Param): string
  {
    match p
    case Controls => "0"
    case Quality => "auto"
    case _ => "1"
  }

  /** The order the parameters are set in. */
  function Rank(p: Param): nat
  {
    match p
    case Autoplay => 0
    case Muted => 1
    case Loop => 2
    case Controls => 3
    case Responsive => 4
    case Quality => 5
  }

  function ParamOf(k: nat): (p: Param)
    requires k < 6
    ensures Rank(p) == k
  {
    if k == 0 then Autoplay else if k == 1 then Muted else if k == 2 then Loop
    else if k == 3 then Controls else if k == 4 then Responsive else Quality
  }

  /** Whether the options ask for the parameter: the flags when true, controls when explicitly false, the last two always. */
  predicate Wanted(o: EmbedOptions, p: Param)
  {
    match p
    case Autoplay => o.autoplay == Some(true)
    case Muted => o.muted == Some(true)
    case Loop => o.loop == Some(true)
    case Controls => o.controls == Some(false)
    case _ => true
  }

  lemma RankIdentifies(p: Param)
    ensures forall q :: Rank(q) == Rank(p) ==> q == p
  {
  }

  predicate Ascending(r: seq<Param>)
  {
    forall i, j :: 0 <= i < j < |r| ==> Rank(r[i]) < Rank(r[j])
  }

  /** The `params.set` calls from the `k`-th on, each made when its option asks for it. */
  function SetFrom(o: EmbedOptions, k: nat): (r: seq<Param>)
    requires k <= 6
    ensures forall p :: p in r <==> Rank(p) >= k && Wanted(o, p)
    ensures forall i :: 0 <= i < |r| ==> Rank(r[i]) >= k
    ensures Ascending(r)
    decreases 6 - k
  {
    if k == 6 then []
    else
      var p := ParamOf(k);
      var rest := SetFrom(o, k + 1);
      RankIdentifies(p);
      if Wanted(o, p) then [p] + rest else rest
  }

  /**
   * The parameters `generateEmbedUrl` sets: exactly the wanted ones, each
   * once, in the order of the calls; responsive and quality always.
   */
  function EmbedParams(o: EmbedOptions): (r: seq<Param>)
    ensures forall p :: p in r <==> Wanted(o, p)
    ensures Ascending(r)
  {
    SetFrom(o, 0)
  }

  function Pair(p: Param): (r: string)
    ensures |r| > 0
  {
    ParamName(p) + "=" + ParamValue(p)
  }

  function Pairs(ps: seq<Param>): (r: seq<string>)
    ensures |r| == |ps| && forall i :: 0 <= i < |ps| ==> r[i] == Pair(ps[i])
  {
    seq(|ps|, i requires 0 <= i < |ps| => Pair(ps[i]))
  }

  /** `URLSearchParams.toString()` for parameters whose names and values need no escaping. */
  function QueryString(ps: seq<Param>): string
  {
    Join(Pairs(ps), "&")
  }

  lemma QueryNotEmpty(ps: seq<Param>)
    requires |ps| > 0
    ensures QueryString(ps) != ""
  {
    var parts := Pairs(ps);
    assert |parts[0]| > 0;
    if |parts| > 1 {
      assert QueryString(ps) == parts[0] + "&" + Join(parts[1..], "&");
    }
  }

  /** `generateEmbedUrl`: the player URL for the id with the options' query, which is never empty. */
  function GenerateEmbedUrl(id: string, o: EmbedOptions): (r: string)
    ensures r == PlayerBase + id + ("?" + QueryString(EmbedParams(o)))
  {
    QueryNotEmpty(EmbedParams(o));
    var q := QueryString(EmbedParams(o));
    PlayerBase + id + (if q == "" then "" else "?" + q)
  }

  predicate QueryChar(c: char)
  {
    'a' <= c <= 'z' || IsDigit(c) || c == '=' || c == '&'
  }

  lemma PairChars(p: Param)
    ensures forall k :: 0 <= k < |Pair(p)| ==> QueryChar(Pair(p)[k])
  {
    var n := ParamName(p);
    var v := ParamValue(p);
    assert forall k :: 0 <= k < |n| ==> 'a' <= n[k] <= 'z';
    assert forall k :: 0 <= k < |v| ==> QueryChar(v[k]);
    forall k | 0 <= k < |Pair(p)|
      ensures QueryChar(Pair(p)[k])
    {
      if k < |n| {
        assert Pair(p)[k] == n[k];
      } else if k > |n| {
        assert Pair(p)[k] == v[k - |n| - 1];
      }
    }
  }

  /** Query strings are made of lower-case letters, digits, '=' and '&'. */
  lemma QueryChars(ps: seq<Param>)
    ensures forall k :: 0 <= k < |QueryString(ps)| ==> QueryChar(QueryString(ps)[k])
  {
    var parts := Pairs(ps);
    forall i, k | 0 <= i < |parts| && 0 <= k < |parts[i]|
      ensures QueryChar(parts[i][k])
    {
      PairChars(ps[i]);
    }
    JoinKeeps(parts, "&", QueryChar);
  }

  /** The query part of an embed URL holds no '.', '/' or line break, and starts with '?'. */
  lemma QueryTailQuiet(ps: seq<Param>)
    ensures QuietTail("?" + QueryString(ps))
  {
    QueryChars(ps);
    QueryCharsQuiet(QueryString(ps));
  }

  /** A query of letters, digits, '=' and '&' behind a '?' is a quiet tail. */
  lemma QueryCharsQuiet(q: string)
    requires forall k :: 0 <= k < |q| ==> QueryChar(q[k])
    ensures QuietTail("?" + q)
  {
    var tail := "?" + q;
    forall k | 0 <= k < |tail|
      ensures tail[k] != '.' && tail[k] != '/' && !IsLineTerminator(tail[k])
    {
      if k > 0 {
        assert tail[k] == q[k - 1];
        assert QueryChar(q[k - 1]);
      }
    }
    assert tail[0] == '?';
  }

  /** Generated embed URLs give their id back, with either version of the extraction. */
  lemma EmbedUrlRoundTrip(id: string, o: EmbedOptions)
    requires |id| > 0 && AllDigits(id)
    ensures ExtractVimeoId(GenerateEmbedUrl(id, o)) == Some(id)
    ensures ExtractVimeoIdAsWritten(GenerateEmbedUrl(id, o)) == Some(id)
  {
    QueryTailQuiet(EmbedParams(o));
    PlayerUrlRoundTrip(id, "?" + QueryString(EmbedParams(o)));
  }

  /** With no options the embed URL asks only for the responsive player at automatic quality. */
  lemma DefaultEmbedUrl(id: string)
    ensures GenerateEmbedUrl(id, EmbedOptions(None, None, None, None)) == PlayerBase + id + "?responsive=1&quality=auto"
  {
    var ps := EmbedParams(EmbedOptions(None, None, None, None));
    assert ps == [Responsive, Quality];
    var parts := Pairs(ps);
    assert parts[1..] == [Pair(Quality)];
    assert QueryString(ps) == Pair(Responsive) + "&" + Pair(Quality);
    DefaultPairs();
  }

  lemma DefaultPairs()
    ensures "?" + (Pair(Responsive) + "&" + Pair(Quality)) == "?responsive=1&quality=auto"
  {
  }

  // The catalogue

  datatype ServiceType =
    | Standard | SemiCustom | FullCustom | FullAnimation
    | OeTeaser | AlternateLanguage | PptAi | PptTranslated

  datatype Category = VideoProduction | WebsiteServices | AdditionalServices

  /** A catalogue video; title, description and thumbnail are display text and left out. */
  datatype VimeoVideo = VimeoVideo(
    id: string,
    duration: int,
    embedUrl: string,
    privateUrl: Option<string>,
    serviceType: ServiceType,
    category: Category)

  /** A catalogue entry: the player link and the review link are both built from the id. */
  /** The fields of a catalogue row: the review hash stands in for the private link. */
  datatype Row = Row(id: string, hash: string, duration: int, serviceType: ServiceType, category: Category)

  /** A catalogue entry: the player link and the review link are both built from the id. */
  function Example(r: Row): VimeoVideo
  {
    VimeoVideo(r.id, r.duration, PlayerBase + r.id, Some(ReviewUrl(r.id, r.hash)), r.serviceType, r.category)
  }

  const Rows := [
    Row("744821736", "f7f2d71129", 120, Standard, VideoProduction),
    Row("1023365575", "e9c128930b", 90, SemiCustom, VideoProduction),
    Row("874206654", "ceb87d0226", 150, FullCustom, VideoProduction),
    Row("693745318", "145fbe1647", 180, FullAnimation, VideoProduction),
    Row("1110010927", "f91fb8db0b", 60, OeTeaser, AdditionalServices),
    Row("1011042698", "be0f186c29", 120, PptAi, AdditionalServices),
    Row("1015929647", "d554a2a962", 110, PptTranslated, AdditionalServices)
  ]

  /** `videoExamples`. */
  const VideoExamples: seq<VimeoVideo> := seq(|Rows|, k requires 0 <= k < |Rows| => Example(Rows[k]))

  /** Both links of the entry give back its id. */
  predicate LinksGiveId(v: VimeoVideo)
  {
    ExtractVimeoId(v.embedUrl) == Some(v.id) && (v.privateUrl.Some? ==> ExtractVimeoId(v.privateUrl.value) == Some(v.id))
  }

  /** The same, with the extraction as written. */
  predicate LinksGiveIdAsWritten(v: VimeoVideo)
  {
    ExtractVimeoIdAsWritten(v.embedUrl) == Some(v.id)
    && (v.privateUrl.Some? ==> ExtractVimeoIdAsWritten(v.privateUrl.value) == Some(v.id))
  }

  predicate GoodId(id: string)
  {
    |id| > 0 && AllDigits(id)
  }

  predicate QuietHash(hash: string)
  {
    NoneOf(hash, '.') && NoneOf(hash, '/') && NoLineTerminator(hash)
  }

  predicate LetterHash(hash: string)
  {
    QuietHash(hash) && |hash| > 0 && !IsDigit(hash[0])
  }

  /** For an entry whose hash starts with a letter, both links give back the id, with either extraction. */
  lemma ExampleLinks(r: Row)
    requires GoodId(r.id) && LetterHash(r.hash)
    ensures LinksGiveId(Example(r))
    ensures LinksGiveIdAsWritten(Example(r))
  {
    assert PlayerBase + r.id == PlayerBase + r.id + "";
    PlayerUrlRoundTrip(r.id, "");
    ReviewUrlLazy(r.id, r.hash);
    assert "" + r.hash == r.hash;
    ReviewUrlGreedy(r.id, "", r.hash);
  }

  /** Every id is digits. */
  lemma RowIdsAreDigits()
    ensures forall k :: 0 <= k < |Rows| ==> GoodId(Rows[k].id)
  {
  }

  predicate Alphanumeric(s: string)
  {
    forall k :: 0 <= k < |s| ==> IsDigit(s[k]) || 'a' <= s[k] <= 'z'
  }

  lemma AlphanumericIsQuiet(s: string)
    requires Alphanumeric(s)
    ensures QuietHash(s)
  {
  }

  /** Every hash is lower-case letters and digits. */
  lemma RowHashesAlphanumeric()
    ensures forall k :: 0 <= k < |Rows| ==> Alphanumeric(Rows[k].hash)
  {
  }

  /** No hash holds a '.', a '/' or a line break. */
  lemma RowHashesQuiet()
    ensures forall k :: 0 <= k < |Rows| ==> QuietHash(Rows[k].hash)
  {
    RowHashesAlphanumeric();
    forall k | 0 <= k < |Rows|
      ensures QuietHash(Rows[k].hash)
    {
      AlphanumericIsQuiet(Rows[k].hash);
    }
  }

  /** Every hash but the fourth starts with a letter. */
  lemma RowHashesStartWithLetters()
    ensures forall k :: 0 <= k < |Rows| && k != 3 ==> LetterHash(Rows[k].hash)
  {
    RowHashesQuiet();
  }

  /** The fourth hash starts with the digits 145. */
  lemma FourthHash()
    ensures Rows[3].hash == "145" + "fbe1647" && Rows[3].id == "693745318"
    ensures !IsDigit("fbe1647"[0])
  {
  }

  /** For an entry whose hash starts with digits, as written the review link gives those digits instead of the id. */
  lemma DigitHashLinks(r: Row, lead: string, rest: string)
    requires GoodId(r.id) && QuietHash(r.hash) && r.hash == lead + rest
    requires |lead| > 0 && AllDigits(lead) && lead != r.id && (|rest| == 0 || !IsDigit(rest[0]))
    ensures LinksGiveId(Example(r)) && !LinksGiveIdAsWritten(Example(r))
  {
    assert PlayerBase + r.id == PlayerBase + r.id + "";
    PlayerUrlRoundTrip(r.id, "");
    ReviewUrlLazy(r.id, r.hash);
    ReviewUrlGreedy(r.id, lead, rest);
  }

  /**
   * Over the catalogue: the corrected extraction reads every entry's id from
   * both of its links; as written it fails only on the full animation
   * entry's review link, whose hash starts with digits.
   */
  lemma CatalogueLinks(k: nat)
    requires k < |VideoExamples|
    ensures LinksGiveId(VideoExamples[k])
    ensures LinksGiveIdAsWritten(VideoExamples[k]) <==> k != 3
  {
    RowIdsAreDigits();
    if k == 3 {
      FourthHash();
      RowHashesQuiet();
      DigitHashLinks(Rows[3], "145", "fbe1647");
    } else {
      RowHashesStartWithLetters();
      ExampleLinks(Rows[k]);
    }
  }

  // Lookups

  function OfType(t: ServiceType): VimeoVideo -> bool
  {
    (v: VimeoVideo) => v.serviceType == t
  }

  function InCategory(c: Category): VimeoVideo -> bool
  {
    (v: VimeoVideo) => v.category == c
  }

  /** `getVideosByServiceType`: the catalogue's videos of the type, in catalogue order. */
  function GetVideosByServiceType(vs: seq<VimeoVideo>, t: ServiceType): (r: seq<VimeoVideo>)
    ensures forall v :: v in r <==> v in vs && v.serviceType == t
    ensures IsSubseq(r, vs)
  {
    FilterIsSubseq(vs, OfType(t));
    Filter(vs, OfType(t))
  }

  /** `getVideosByCategory`: the catalogue's videos in the category, in catalogue order. */
  function GetVideosByCategory(vs: seq<VimeoVideo>, c: Category): (r: seq<VimeoVideo>)
    ensures forall v :: v in r <==> v in vs && v.category == c
    ensures IsSubseq(r, vs)
  {
    FilterIsSubseq(vs, InCategory(c));
    Filter(vs, InCategory(c))
  }

  /** The showcase order: standard, semi-custom, full custom, full animation; every other type comes after. */
  function FeaturedRank(t: ServiceType): nat
  {
    match t
    case Standard => 0
    case SemiCustom => 1
    case FullCustom => 2
    case FullAnimation => 3
    case _ => 4
  }

  function FeaturedAt(k: nat): (t: ServiceType)
    requires k < 4
    ensures FeaturedRank(t) == k
  {
    if k == 0 then Standard else if k == 1 then SemiCustom else if k == 2 then FullCustom else FullAnimation
  }

  /** The first video of each showcase type from the `k`-th on; a type without a video is skipped. */
  function FeaturedFrom(vs: seq<VimeoVideo>, k: nat): (r: seq<VimeoVideo>)
    requires k <= 4
    ensures |r| <= 4 - k
    decreases 4 - k
  {
    if k == 4 then []
    else
      var rest := FeaturedFrom(vs, k + 1);
      match Find(vs, OfType(FeaturedAt(k)))
      case Some(v) => [v] + rest
      case None => rest
  }

  /**
   * What `FeaturedFrom` collects: for each showcase type from the `k`-th on,
   * the catalogue's first video of that type, and nothing else.
   */
  lemma {:induction false} FeaturedFromMembers(vs: seq<VimeoVideo>, k: nat)
    requires k <= 4
    ensures var r := FeaturedFrom(vs, k);
      && (forall i :: 0 <= i < |r| ==> k <= FeaturedRank(r[i].serviceType) < 4)
      && (forall i :: 0 <= i < |r| ==> Find(vs, OfType(r[i].serviceType)) == Some(r[i]))
      && (forall t :: k <= FeaturedRank(t) < 4 && Find(vs, OfType(t)).Some? ==> Find(vs, OfType(t)).value in r)
    decreases 4 - k
  {
    if k < 4 {
      FeaturedFromMembers(vs, k + 1);
      var t := FeaturedAt(k);
      ShowcaseRankIdentifies(t);
      var rest := FeaturedFrom(vs, k + 1);
      match Find(vs, OfType(t))
      case Some(v) =>
        var r := [v] + rest;
        assert FeaturedFrom(vs, k) == r;
        assert v.serviceType == t;
        assert forall i :: 0 < i < |r| ==> r[i] == rest[i - 1];
      case None =>
        assert FeaturedFrom(vs, k) == rest;
    }
  }

  /** `FeaturedFrom` lists its videos in strictly ascending showcase order. */
  lemma {:induction false} FeaturedFromOrdered(vs: seq<VimeoVideo>, k: nat)
    requires k <= 4
    ensures var r := FeaturedFrom(vs, k);
      forall i, j :: 0 <= i < j < |r| ==> FeaturedRank(r[i].serviceType) < FeaturedRank(r[j].serviceType)
    decreases 4 - k
  {
    if k < 4 {
      FeaturedFromOrdered(vs, k + 1);
      FeaturedFromMembers(vs, k + 1);
      var t := FeaturedAt(k);
      var rest := FeaturedFrom(vs, k + 1);
      match Find(vs, OfType(t))
      case Some(v) =>
        var r := [v] + rest;
        assert FeaturedFrom(vs, k) == r;
        assert FeaturedRank(v.serviceType) == k;
        assert forall i :: 0 < i < |r| ==> r[i] == rest[i - 1];
      case None =>
        assert FeaturedFrom(vs, k) == rest;
    }
  }

  lemma ShowcaseRankIdentifies(t: ServiceType)
    requires FeaturedRank(t) < 4
    ensures forall u :: FeaturedRank(u) == FeaturedRank(t) ==> u == t
  {
  }

  /**
   * `getFeaturedVideos`: the first video of each of the four production
   * types, in that order, leaving out a type the catalogue lacks.
   */
  function GetFeaturedVideos(vs: seq<VimeoVideo>): (r: seq<VimeoVideo>)
    ensures |r| <= 4
    ensures forall i :: 0 <= i < |r| ==> r[i] in vs && FeaturedRank(r[i].serviceType) < 4
    ensures forall i :: 0 <= i < |r| ==> Find(vs, OfType(r[i].serviceType)) == Some(r[i])
    ensures forall i, j :: 0 <= i < j < |r| ==> FeaturedRank(r[i].serviceType) < FeaturedRank(r[j].serviceType)
    ensures forall t :: FeaturedRank(t) < 4 && Find(vs, OfType(t)).Some? ==> Find(vs, OfType(t)).value in r
  {
    FeaturedFromMembers(vs, 0);
    FeaturedFromOrdered(vs, 0);
    FeaturedFrom(vs, 0)
  }

  /** When the first four videos are one of each showcase type in order, they are the featured videos. */
  lemma LeadingFeatured(vs: seq<VimeoVideo>)
    requires |vs| >= 4 && forall k :: 0 <= k < 4 ==> vs[k].serviceType == FeaturedAt(k)
    ensures GetFeaturedVideos(vs) == vs[..4]
  {
    LeadingFrom(vs, 0);
    assert vs[0..4] == vs[..4];
  }

  lemma {:induction false} LeadingFrom(vs: seq<VimeoVideo>, k: nat)
    requires k <= 4 && |vs| >= 4 && forall i :: 0 <= i < 4 ==> vs[i].serviceType == FeaturedAt(i)
    ensures FeaturedFrom(vs, k) == vs[k..4]
    decreases 4 - k
  {
    if k < 4 {
      LeadingFrom(vs, k + 1);
      FeaturedStep(vs, k);
      SliceCons(vs, k, 4);
    }
  }

  lemma SliceCons<T>(s: seq<T>, i: nat, j: nat)
    requires i < j <= |s|
    ensures s[i..j] == [s[i]] + s[i + 1..j]
  {
  }

  lemma FeaturedStep(vs: seq<VimeoVideo>, k: nat)
    requires k < 4 && |vs| >= 4 && forall i :: 0 <= i < 4 ==> vs[i].serviceType == FeaturedAt(i)
    ensures FeaturedFrom(vs, k) == [vs[k]] + FeaturedFrom(vs, k + 1)
  {
    var t := FeaturedAt(k);
    forall j | 0 <= j < k
      ensures vs[j].serviceType != t
    {
      assert FeaturedRank(vs[j].serviceType) == j;
    }
    FindFirst(vs, OfType(t), k);
  }

  lemma FindFirst<T>(s: seq<T>, p: T -> bool, k: nat)
    requires k < |s| && p(s[k]) && forall j :: 0 <= j < k ==> !p(s[j])
    ensures Find(s, p) == Some(s[k])
  {
    var r := Find(s, p);
    var i :| 0 <= i < |s| && s[i] == r.value && forall j :: 0 <= j < i ==> !p(s[j]);
    assert !(i < k) && !(k < i);
  }

  /** The catalogue lists its four production examples first, one per type, so they are the featured videos. */
  lemma CatalogueFeatured()
    ensures GetFeaturedVideos(VideoExamples) == VideoExamples[..4]
  {
    assert forall k :: 0 <= k < 4 ==> VideoExamples[k].serviceType == Rows[k].serviceType;
    LeadingFeatured(VideoExamples);
  }

  // Duration labels

  /** `padStart(2, '0')`. */
  function PadStart2(t: string): (r: string)
    ensures |t| >= 2 ==> r == t
    ensures |t| < 2 ==> |r| == 2 && r[2 - |t|..] == t && forall k :: 0 <= k < 2 - |t| ==> r[k] == '0'
  {
    if |t| >= 2 then t else if |t| == 1 then "0" + t else "00"
  }

  /**
   * `formatDuration`: whole minutes (rounded down), a colon, then the
   * remaining seconds as JavaScript's `%` gives them (negative for a
   * negative duration), padded to two characters.
   */
  function FormatDuration(seconds: int): (r: string)
    ensures seconds >= 0 ==> ParseDuration(r) == Some(seconds)
  {
    LabelReadsBack(seconds);
    IntToString(seconds / 60) + ":" + PadStart2(IntToString(JsRem(seconds, 60)))
  }

  /** Reading a label back: minutes, a colon, two digits below 60. */
  function ParseDuration(t: string): Option<nat>
  {
    var parts := Split(t, ':');
    if |parts| == 2 && |parts[0]| > 0 && AllDigits(parts[0]) && |parts[1]| == 2 && AllDigits(parts[1])
       && ParseNat(parts[1]) < 60
    then Some(ParseNat(parts[0]) * 60 + ParseNat(parts[1]))
    else None
  }

  /** The seconds below a minute print as two digits that read back as their value. */
  lemma SecondsField(q: nat)
    requires q < 60
    ensures var b := PadStart2(NatToString(q)); |b| == 2 && AllDigits(b) && ParseNat(b) == q
  {
    var b := PadStart2(NatToString(q));
    if q < 10 {
      assert NatToString(q) == [DigitChar(q)];
      assert b == "0" + [DigitChar(q)];
      assert b[..1] == "0" && ParseNat("0") == 0;
      assert DigitValue(b[1]) == q;
    } else {
      assert NatToString(q / 10) == [DigitChar(q / 10)];
      assert NatToString(q) == NatToString(q / 10) + [DigitChar(q % 10)];
      ParseNatToString(q);
    }
  }

  /** Every label of a non-negative duration reads back as that duration. */
  lemma LabelReadsBack(seconds: int)
    ensures seconds >= 0 ==>
      ParseDuration(IntToString(seconds / 60) + ":" + PadStart2(IntToString(JsRem(seconds, 60)))) == Some(seconds)
  {
    if seconds < 0 {
      return;
    }
    var m, q := seconds / 60, seconds % 60;
    var a, b := NatToString(m), PadStart2(NatToString(q));
    var shown := a + [':'] + b;
    assert IntToString(m) + ":" + PadStart2(IntToString(JsRem(seconds, 60))) == shown by {
      assert JsRem(seconds, 60) == q;
    }
    SecondsField(q);
    assert Split(shown, ':') == [a, b] by {
      DigitsHaveNoColon(a);
      DigitsHaveNoColon(b);
      SplitConcat(a, b, ':');
      SplitNoSep(b, ':');
    }
    ParseNatToString(m);
    assert seconds == m * 60 + q;
  }

  lemma DigitsHaveNoColon(s: string)
    requires AllDigits(s)
    ensures ':' !in s
  {
  }

  lemma DurationExamples()
    ensures FormatDuration(90) == "1:30"
    ensures FormatDuration(120) == "2:00"
    ensures FormatDuration(65) == "1:05"
  {
    assert NatToString(1) == "1" && NatToString(2) == "2" && NatToString(5) == "5";
    assert NatToString(30) == "30" by {
      assert NatToString(3) == "3";
    }
    assert NatToString(0) == "0";
  }
}
