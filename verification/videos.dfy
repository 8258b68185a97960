/**
 * The example-video list of the service pages
 * (apps/mybenefitsvideos/src/lib/videos.ts): eight examples linked by Vimeo
 * review or Vimeo Pro URLs, lookup by service type and by id, the player URL
 * with fixed display parameters, and reading the embed id back from a link.
 */
module Videos {
  import opened Wrappers
  import opened Seqs
  import opened Strings
  import opened UrlPatterns
  import Vimeo

  datatype VideoKind = Standard | SemiCustom | FullCustom | FullAnimation | OeTeaser | AltLanguage | DiyPpt | Microsite

  datatype VideoExample = VideoExample(id: string, serviceType: VideoKind, vimeoUrl: string, embedId: Option<string>)

  /** `\/review\/` */
  const ReviewPath := "/review/"

  /** `vimeopro\.com\/` */
  const ProHost := "vimeopro.com/"

  /**
   * `extractEmbedId`: `/vimeo\.com\/(\d+)/`, then `/vimeo\.com\/.*\/review\/(\d+)/`,
   * then `/vimeopro\.com\/.*\/(.+)$/`; the first that matches gives its group,
   * and none gives `null`.
   */
  function ExtractEmbedId(url: string): (r: Option<string>)
    ensures r.Some? ==> |r.value| > 0
    ensures r.None? <==>
      && (forall i: nat :: !LitDigitAt(url, Vimeo.Host, i))
      && (forall i: nat :: SpanCapture(url, Vimeo.Host, ReviewPath, true, i).None?)
      && (forall i: nat :: TailEnd(url, ProHost, i).None?)
  {
    match LitDigits(url, Vimeo.Host)
    case Some(id) => Some(id)
    case None =>
      match SpanDigits(url, Vimeo.Host, ReviewPath, true)
      case Some(id) => Some(id)
      case None => TailAfter(url, ProHost)
  }

  // Review links: https://vimeo.com/mojosolo/review/<id>/<hash>

  /** In a review link the host occurs once, at 8, and a digit never follows it. */
  lemma ReviewHost(id: string, hash: string)
    requires Vimeo.GoodId(id) && Vimeo.QuietHash(hash)
    ensures forall i :: OccursAt(Vimeo.ReviewUrl(id, hash), Vimeo.Host, i) <==> i == 8
    ensures forall i: nat :: !LitDigitAt(Vimeo.ReviewUrl(id, hash), Vimeo.Host, i)
  {
    var s := Vimeo.ReviewUrl(id, hash);
    Vimeo.ReviewUrlChars(id, hash);
    forall i | OccursAt(s, Vimeo.Host, i)
      ensures i == 8
    {
      OccursAtChar(s, Vimeo.Host, i, 5);
    }
    forall k | 0 <= k < 10
      ensures s[8..18][k] == Vimeo.Host[k]
    {
      assert s[8 + k] == Vimeo.ReviewBase[8 + k];
    }
    assert OccursAt(s, Vimeo.Host, 8);
  }

  /** "/review/" occurs once in a review link, at 26, just before the id. */
  lemma ReviewPathOnce(id: string, hash: string)
    requires Vimeo.GoodId(id) && Vimeo.QuietHash(hash)
    ensures forall j :: OccursAt(Vimeo.ReviewUrl(id, hash), ReviewPath, j) <==> j == 26
  {
    var s := Vimeo.ReviewUrl(id, hash);
    Vimeo.ReviewUrlChars(id, hash);
    assert s[34] == id[0] && IsDigit(s[34]);
    forall j | OccursAt(s, ReviewPath, j)
      ensures j == 26
    {
      OccursAtChar(s, ReviewPath, j, 0);
      OccursAtChar(s, ReviewPath, j, 1);
      OccursAtChar(s, ReviewPath, j, 7);
    }
    forall k | 0 <= k < 8
      ensures s[26..34][k] == ReviewPath[k]
    {
      assert s[26 + k] == Vimeo.ReviewBase[26 + k];
    }
  }

  /** The middle pattern matches a review link only from the host at 8, with "/review/" at 26. */
  lemma ReviewSpan(id: string, hash: string)
    requires Vimeo.GoodId(id) && Vimeo.QuietHash(hash)
    ensures SpanEnd(Vimeo.ReviewUrl(id, hash), Vimeo.Host, ReviewPath, true, 8) == Some(26)
    ensures forall i: nat :: i != 8 ==> SpanCapture(Vimeo.ReviewUrl(id, hash), Vimeo.Host, ReviewPath, true, i).None?
  {
    var s := Vimeo.ReviewUrl(id, hash);
    Vimeo.ReviewUrlChars(id, hash);
    ReviewHost(id, hash);
    ReviewPathOnce(id, hash);
    assert LineEnd(s, 18) == |s|;
    assert IsDigit(s[34]) by {
      assert s[34] == id[0];
    }
    assert SpanAt(s, Vimeo.Host, ReviewPath, 8, 26);
    forall i: nat | i != 8
      ensures SpanCapture(s, Vimeo.Host, ReviewPath, true, i).None?
    {
      assert SpanEnd(s, Vimeo.Host, ReviewPath, true, i).None?;
    }
  }

  /** A review link gives its id back, whatever its hash. */
  lemma ReviewEmbedId(id: string, hash: string)
    requires Vimeo.GoodId(id) && Vimeo.QuietHash(hash)
    ensures ExtractEmbedId(Vimeo.ReviewUrl(id, hash)) == Some(id)
  {
    ReviewHost(id, hash);
    ReviewSpan(id, hash);
    Vimeo.ReviewUrlIdRun(id, hash);
    SpanDigitsAt(Vimeo.ReviewUrl(id, hash), Vimeo.Host, ReviewPath, true, 8, id);
  }

  // Vimeo Pro links: https://vimeopro.com/mojosolo/<slug>

  const ProBase := "https://vimeopro.com/mojosolo/"

  function ProUrl(slug: string): string
  {
    ProBase + slug
  }

  lemma ProUrlChars(slug: string)
    requires Vimeo.QuietHash(slug)
    ensures var s := ProUrl(slug);
      && NoLineTerminator(s)
      && (forall k :: 0 <= k < |s| && s[k] == '.' ==> k == 16)
      && (forall k :: 0 <= k < |s| && s[k] == '/' ==> k == 6 || k == 7 || k == 20 || k == 29)
      && s[11] == 'e'
  {
    var s := ProUrl(slug);
    assert |ProBase| == 30;
    forall k | 0 <= k < |s|
      ensures !IsLineTerminator(s[k])
      ensures s[k] != '.' || k == 16
      ensures s[k] != '/' || k == 6 || k == 7 || k == 20 || k == 29
    {
      if k < 30 {
        assert s[k] == ProBase[k];
      } else {
        assert s[k] == slug[k - 30];
      }
    }
    assert s[11] == ProBase[11];
  }

  /** In a Vimeo Pro link "vimeo.com/" never occurs, "vimeopro.com/" occurs once, at 8, and the last '/' is at 29. */
  lemma ProUrlShape(slug: string)
    requires |slug| > 0 && Vimeo.QuietHash(slug)
    ensures forall i :: !OccursAt(ProUrl(slug), Vimeo.Host, i)
    ensures TailEnd(ProUrl(slug), ProHost, 8) == Some(29)
    ensures forall i: nat :: i != 8 ==> TailEnd(ProUrl(slug), ProHost, i).None?
  {
    var s := ProUrl(slug);
    ProUrlChars(slug);
    forall i
      ensures !OccursAt(s, Vimeo.Host, i)
    {
      if 0 <= i && i + 10 <= |s| {
        assert s[i..i + 10][5] == s[i + 5] && s[i..i + 10][0] == s[i];
      }
    }
    forall i | OccursAt(s, ProHost, i)
      ensures i == 8
    {
      OccursAtChar(s, ProHost, i, 8);
    }
    forall k | 0 <= k < 13
      ensures s[8..21][k] == ProHost[k]
    {
      assert s[8 + k] == ProBase[8 + k];
    }
    assert OccursAt(s, ProHost, 8);
    assert LineEnd(s, 21) == |s|;
    assert s[29] == '/';
    assert TailAt(s, ProHost, 8, 29);
  }

  /** A Vimeo Pro link gives its slug back. */
  lemma ProEmbedId(slug: string)
    requires |slug| > 0 && Vimeo.QuietHash(slug)
    ensures ExtractEmbedId(ProUrl(slug)) == Some(slug)
  {
    var s := ProUrl(slug);
    ProUrlShape(slug);
    forall i: nat
      ensures !LitDigitAt(s, Vimeo.Host, i)
      ensures SpanCapture(s, Vimeo.Host, ReviewPath, true, i).None?
    {
      assert SpanEnd(s, Vimeo.Host, ReviewPath, true, i).None?;
    }
    assert s[30..] == slug;
    TailAfterAt(s, ProHost, 8, slug);
  }

  // Player links

  /** The display switches `URLSearchParams` writes first: no title, byline or portrait. */
  const Switches := "?title=0&byline=0&portrait=0"

  /** Autoplay is added only when asked for. */
  function AutoplaySwitch(autoplay: bool): string
  {
    if autoplay then "&autoplay=1" else ""
  }

  /** `getEmbedUrl`: the player URL for the embed id; the query always starts with the three display switches. */
  function GetEmbedUrl(embedId: string, autoplay: bool): (r: string)
    ensures StartsWith(r, Vimeo.PlayerBase + embedId + Switches)
    ensures |r| == |Vimeo.PlayerBase| + |embedId| + if autoplay then 39 else 28
  {
    PrefixOfConcat(Vimeo.PlayerBase + embedId + Switches, AutoplaySwitch(autoplay));
    Vimeo.PlayerBase + embedId + Switches + AutoplaySwitch(autoplay)
  }

  /** "autoplay" appears in the query exactly when autoplay is asked for. */
  lemma EmbedUrlAutoplay(autoplay: bool)
    ensures Contains(Switches + AutoplaySwitch(autoplay), "autoplay") <==> autoplay
  {
    var q := Switches + AutoplaySwitch(autoplay);
    if autoplay {
      assert OccursAt(q, "autoplay", 29);
      ContainsIff(q, "autoplay");
    } else {
      assert 'u' !in q;
      CharAbsent(q, "autoplay", 1);
    }
  }

  /** After the '?' the query is made of letters, digits, '=' and '&'. */
  lemma DisplayQueryChars(autoplay: bool)
    ensures var q := (Switches + AutoplaySwitch(autoplay))[1..];
      forall k :: 0 <= k < |q| ==> Vimeo.QueryChar(q[k])
  {
  }

  /** The vimeo.ts extraction reads a numeric embed id back from the player URL built for it. */
  lemma EmbedUrlGivesId(embedId: string, autoplay: bool)
    requires Vimeo.GoodId(embedId)
    ensures Vimeo.ExtractVimeoId(GetEmbedUrl(embedId, autoplay)) == Some(embedId)
  {
    var tail := Switches + AutoplaySwitch(autoplay);
    DisplayQueryChars(autoplay);
    Vimeo.QueryCharsQuiet(tail[1..]);
    assert tail == "?" + tail[1..];
    assert GetEmbedUrl(embedId, autoplay) == Vimeo.PlayerBase + embedId + tail;
    Vimeo.PlayerUrlRoundTrip(embedId, tail);
  }

  // The list

  /** A link is a review link (id and hash) or a Vimeo Pro showcase link (slug). */
  datatype Link = Review(videoId: string, hash: string) | Showcase(slug: string)

  function LinkUrl(l: Link): string
  {
    match l
    case Review(id, hash) => Vimeo.ReviewUrl(id, hash)
    case Showcase(slug) => ProUrl(slug)
  }

  datatype Row = Row(id: string, serviceType: VideoKind, link: Link, embedId: string)

  function Example(r: Row): VideoExample
  {
    VideoExample(r.id, r.serviceType, LinkUrl(r.link), Some(r.embedId))
  }

  const Rows := [
    Row("standard-example", Standard, Review("744821736", "f7f2d71129"), "744821736"),
    Row("semi-custom-example", SemiCustom, Review("1023365575", "e9c128930b"), "1023365575"),
    Row("full-custom-example", FullCustom, Review("874206654", "ceb87d0226"), "874206654"),
    Row("full-animation-example", FullAnimation, Review("693745318", "145fbe1647"), "693745318"),
    Row("oe-teaser-example", OeTeaser, Review("1110010927", "f91fb8db0b"), "1110010927"),
    Row("alt-language-example", AltLanguage, Showcase("brighthealth-spanish-oe-2022"), "brighthealth-spanish-oe-2022"),
    Row("diy-ppt-ai-example", DiyPpt, Review("1011042698", "be0f186c29"), "1011042698"),
    Row("diy-ppt-translated-example", DiyPpt, Review("1015929647", "d554a2a962"), "1015929647")
  ]

  /** `VIDEO_EXAMPLES`. */
  const VideoExamples: seq<VideoExample> := seq(|Rows|, k requires 0 <= k < |Rows| => Example(Rows[k]))

  /** `MICROSITE_DEMO`: not a Vimeo link; its embed id "demo" is a name. */
  const MicrositeDemo := VideoExample("microsite-demo", Microsite, "https://demo.benefitsbreak.com/", Some("demo"))

  /** The row's embed id is the one its link carries, and the link is of a shape the extraction reads. */
  predicate WellLinked(r: Row)
  {
    match r.link
    case Review(id, hash) => Vimeo.GoodId(id) && Vimeo.Alphanumeric(hash) && r.embedId == id
    case Showcase(slug) => |slug| > 0 && Vimeo.QuietHash(slug) && r.embedId == slug
  }

  /** All rows but the sixth are review links whose embed id is the video id. */
  lemma ReviewRows()
    ensures forall k :: 0 <= k < |Rows| && k != 5 ==>
      Rows[k].link.Review? && Vimeo.GoodId(Rows[k].link.videoId) && Rows[k].embedId == Rows[k].link.videoId
  {
  }

  lemma ReviewHashes()
    ensures forall k :: 0 <= k < |Rows| && k != 5 && Rows[k].link.Review? ==> Vimeo.Alphanumeric(Rows[k].link.hash)
  {
  }

  /** The sixth row is the Vimeo Pro link, whose embed id is its slug. */
  lemma ShowcaseRow()
    ensures Rows[5].link.Showcase? && Rows[5].embedId == Rows[5].link.slug
    ensures |Rows[5].link.slug| > 0 && Vimeo.QuietHash(Rows[5].link.slug)
  {
  }

  lemma RowsWellLinked()
    ensures forall k :: 0 <= k < |Rows| ==> WellLinked(Rows[k])
  {
    ReviewRows();
    ReviewHashes();
    ShowcaseRow();
  }

  lemma ExampleEmbedId(r: Row)
    requires WellLinked(r)
    ensures ExtractEmbedId(Example(r).vimeoUrl) == Example(r).embedId
  {
    match r.link
    case Review(id, hash) =>
      Vimeo.AlphanumericIsQuiet(hash);
      ReviewEmbedId(id, hash);
    case Showcase(slug) =>
      ProEmbedId(slug);
  }

  /** Every example's link gives back its embed id, the Vimeo Pro slug included. */
  lemma CatalogueEmbedIds(k: nat)
    requires k < |VideoExamples|
    ensures ExtractEmbedId(VideoExamples[k].vimeoUrl) == VideoExamples[k].embedId
  {
    RowsWellLinked();
    ExampleEmbedId(Rows[k]);
  }

  /** The microsite demo's link is not a Vimeo link: extraction gives null, not its embed id. */
  lemma MicrositeDemoNotExtracted()
    ensures ExtractEmbedId(MicrositeDemo.vimeoUrl) == None
  {
    assert 'v' !in MicrositeDemo.vimeoUrl;
    NoVimeoNoId(MicrositeDemo.vimeoUrl);
  }

  /** A link without a 'v' matches none of the three patterns, since each begins with "vimeo". */
  lemma NoVimeoNoId(s: string)
    requires 'v' !in s
    ensures ExtractEmbedId(s) == None
  {
    forall i
      ensures !OccursAt(s, Vimeo.Host, i) && !OccursAt(s, ProHost, i)
    {
      if 0 <= i < |s| {
        assert s[i] in s;
        if i + 10 <= |s| {
          assert s[i..i + 10][0] == s[i];
        }
        if i + 13 <= |s| {
          assert s[i..i + 13][0] == s[i];
        }
      }
    }
    forall i: nat
      ensures SpanCapture(s, Vimeo.Host, ReviewPath, true, i).None?
      ensures TailEnd(s, ProHost, i).None?
    {
      assert SpanEnd(s, Vimeo.Host, ReviewPath, true, i).None?;
    }
  }

  // Lookups

  function OfKind(t: VideoKind): VideoExample -> bool
  {
    (v: VideoExample) => v.serviceType == t
  }

  /** `getVideosByServiceType`: exactly the examples of the type, in list order. */
  function GetVideosByServiceType(vs: seq<VideoExample>, t: VideoKind): (r: seq<VideoExample>)
    ensures forall v :: v in r <==> v in vs && v.serviceType == t
    ensures IsSubseq(r, vs)
  {
    FilterIsSubseq(vs, OfKind(t));
    Filter(vs, OfKind(t))
  }

  function HasId(id: string): VideoExample -> bool
  {
    (v: VideoExample) => v.id == id
  }

  /** `getVideoById`: the first example with the id, or `undefined`. */
  function GetVideoById(vs: seq<VideoExample>, id: string): (r: Option<VideoExample>)
    ensures r.None? <==> forall i :: 0 <= i < |vs| ==> vs[i].id != id
    ensures r.Some? ==> exists i :: 0 <= i < |vs| && vs[i] == r.value && r.value.id == id
                           && forall j :: 0 <= j < i ==> vs[j].id != id
  {
    Find(vs, HasId(id))
  }

  /** The example ids are distinct. */
  lemma RowIdsDistinct()
    ensures forall i, j :: 0 <= i < j < |Rows| ==> Rows[i].id != Rows[j].id
  {
  }

  /** Every example is found by its own id. */
  lemma LookupFindsEach(k: nat)
    requires k < |VideoExamples|
    ensures GetVideoById(VideoExamples, VideoExamples[k].id) == Some(VideoExamples[k])
  {
    RowIdsDistinct();
    var r := GetVideoById(VideoExamples, VideoExamples[k].id);
    var i :| 0 <= i < |VideoExamples| && VideoExamples[i] == r.value && r.value.id == VideoExamples[k].id
             && forall j :: 0 <= j < i ==> VideoExamples[j].id != VideoExamples[k].id;
    assert Rows[i].id == Rows[k].id;
  }
}
