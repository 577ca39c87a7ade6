/** The audience card: a status plus a severance alarm raised when the set
    up age range exceeds the contract's. */
module AudienceNode {
  import opened Wrappers
  import opened Values

  /** The card's data; every member may be missing. */
  datatype AudienceData = AudienceData(
    status: Option<string>,
    hasSeverance: Option<bool>,
    contractAge: Option<string>,
    setupAge: Option<string>)

  datatype AudienceView = AudienceView(
    status: string,
    border: Tone,
    severanceBanner: bool,
    severanceRing: bool,
    setupAgeText: string,
    setupAgeTone: Tone,
    ariaLabel: string)

  /** `hasSeverance || false`: only a present `true` raises the alarm. */
  function Severance(d: AudienceData): (r: bool)
    ensures r <==> d.hasSeverance == Some(true)
  {
    d.hasSeverance.GetOr(false)
  }

  function View(d: AudienceData): (v: AudienceView)
    ensures v.status == OrElse(d.status, PASS)
    ensures v.border == Red <==> Severance(d) || v.status == FAIL
    ensures v.border == Amber <==> !Severance(d) && v.status == WARN
    ensures v.border == Green <==> !Severance(d) && v.status != FAIL && v.status != WARN
    ensures v.severanceBanner <==> d.hasSeverance == Some(true)
    ensures v.severanceRing <==> d.hasSeverance == Some(true)
    ensures v.setupAgeTone == Red <==> v.status == FAIL
    ensures v.setupAgeTone != Red ==> v.setupAgeTone == Neutral
    ensures v.setupAgeText == OrElse(d.setupAge, "N/A")
    ensures v.ariaLabel == "Audience node, status: " + v.status
  {
    var status := OrElse(d.status, PASS);
    var sev := Severance(d);
    AudienceView(status, BorderTone(status, sev), sev, sev, OrElse(d.setupAge, "N/A"),
                 if status == FAIL then Red else Neutral,
                 "Audience node, status: " + status)
  }

  /** A card without data shows a green PASS card with no severance. */
  lemma EmptyDataIsGreenPass()
    ensures var v := View(AudienceData(None, None, None, None));
            v.status == PASS && v.border == Green && !v.severanceBanner
  {
  }

  /** Severance reddens the border but not the set up age: with a passing
      status the two disagree. */
  lemma SeveranceRedBorderOnly(d: AudienceData)
    requires d.hasSeverance == Some(true) && d.status == Some(PASS)
    ensures View(d).border == Red && View(d).setupAgeTone == Neutral
  {
  }
}

/** The ad copy card: a status plus the list of copy violations. */
module CopyNode {
  import opened Wrappers
  import opened Values
  import opened Text

  datatype CopyData = CopyData(status: Option<string>, violations: Option<seq<string>>)

  datatype CopyView = CopyView(
    status: string,
    border: Tone,
    violationList: Option<seq<string>>,
    ariaLabel: string)

  /** `violations || []`: an absent list is empty; any present list, even an
      empty one, is used as it is. */
  function Violations(d: CopyData): (r: seq<string>)
    ensures d.violations.Some? ==> r == d.violations.value
    ensures d.violations.None? ==> r == []
  {
    d.violations.GetOr([])
  }

  function View(d: CopyData): (v: CopyView)
    ensures v.status == OrElse(d.status, PASS)
    ensures v.border == Red <==> v.status == FAIL || |Violations(d)| > 0
    ensures v.border == Amber <==> |Violations(d)| == 0 && v.status == WARN
    ensures v.border == Green <==> |Violations(d)| == 0 && v.status != FAIL && v.status != WARN
    ensures v.violationList.Some? <==> |Violations(d)| > 0
    ensures v.violationList.Some? ==> v.violationList.value == Violations(d)
    ensures v.ariaLabel == "Copy node, status: " + v.status + ", violations: " + IntToString(|Violations(d)|)
  {
    var status := OrElse(d.status, PASS);
    var vs := Violations(d);
    CopyView(status, BorderTone(status, |vs| > 0),
             if |vs| > 0 then Some(vs) else None,
             "Copy node, status: " + status + ", violations: " + IntToString(|vs|))
  }

  /** The label's count is the list's length: two cards with the same status
      and the same label list equally many violations. */
  lemma LabelCountsViolations(d1: CopyData, d2: CopyData)
    requires OrElse(d1.status, PASS) == OrElse(d2.status, PASS)
    requires View(d1).ariaLabel == View(d2).ariaLabel
    ensures |Violations(d1)| == |Violations(d2)|
  {
    var head := "Copy node, status: " + OrElse(d1.status, PASS) + ", violations: ";
    var l1 := View(d1).ariaLabel;
    var l2 := View(d2).ariaLabel;
    assert l1 == head + IntToString(|Violations(d1)|);
    assert l2 == head + IntToString(|Violations(d2)|);
    assert l1[|head|..] == IntToString(|Violations(d1)|);
    assert l2[|head|..] == IntToString(|Violations(d2)|);
    IntToStringInjective(|Violations(d1)|, |Violations(d2)|);
  }
}

/** The creative card: a status, the talent rights of the people shown, and
    the media type read from the declared type or the URL's extension. */
module CreativeNode {
  import opened Wrappers
  import opened Values
  import opened Text

  datatype CreativeData = CreativeData(
    status: Option<string>,
    talentRights: Option<string>,
    kind: Option<string>,
    url: Option<string>)

  datatype TypeLabel = Image | Video | Unknown

  datatype CreativeView = CreativeView(
    status: string,
    talentRights: string,
    border: Tone,
    typeLabel: TypeLabel,
    rightsBadge: Tone,
    ariaLabel: string)

  const Expired: string := "Expired"
  const Active: string := "Active"

  const ImageExtensions: seq<string> := [".jpg", ".jpeg", ".png", ".gif", ".webp"]
  const VideoExtensions: seq<string> := [".mp4", ".webm", ".mov"]

  /** Some pattern of `pats` occurs somewhere in `s`. */
  function AnyOccurs(s: string, pats: seq<string>): (r: bool)
    ensures r <==> exists k :: 0 <= k < |pats| && Contains(s, pats[k])
    decreases |pats|
  {
    if |pats| == 0 then false
    else Contains(s, pats[0]) || AnyOccurs(s, pats[1..])
  }

  /** The URL mentions one of the extensions anywhere, ignoring the case of
      ASCII letters; a missing URL mentions none. */
  predicate UrlMentions(url: Option<string>, exts: seq<string>) {
    url.Some? && AnyOccurs(Lower(url.value), exts)
  }

  function IsImage(d: CreativeData): (r: bool)
    ensures r <==> d.kind == Some("image")
                   || (d.url.Some? && exists k :: 0 <= k < |ImageExtensions| && Contains(Lower(d.url.value), ImageExtensions[k]))
  {
    d.kind == Some("image") || UrlMentions(d.url, ImageExtensions)
  }

  function IsVideo(d: CreativeData): (r: bool)
    ensures r <==> d.kind == Some("video")
                   || (d.url.Some? && exists k :: 0 <= k < |VideoExtensions| && Contains(Lower(d.url.value), VideoExtensions[k]))
  {
    d.kind == Some("video") || UrlMentions(d.url, VideoExtensions)
  }

  /** Expired rights are red, active ones green, anything else plain. */
  function RightsBadge(rights: string): (t: Tone)
    ensures t == Red <==> rights == Expired
    ensures t == Green <==> rights == Active
    ensures t == Red || t == Green || t == Neutral
  {
    if rights == Expired then Red
    else if rights == Active then Green
    else Neutral
  }

  function View(d: CreativeData): (v: CreativeView)
    ensures v.status == OrElse(d.status, PASS)
    ensures v.talentRights == OrElse(d.talentRights, Active)
    ensures v.border == Red <==> v.status == FAIL || v.talentRights == Expired
    ensures v.border == Amber <==> v.talentRights != Expired && v.status == WARN
    ensures v.border == Green <==> v.talentRights != Expired && v.status != FAIL && v.status != WARN
    ensures v.typeLabel == Image <==> IsImage(d)
    ensures v.typeLabel == Video <==> !IsImage(d) && IsVideo(d)
    ensures v.typeLabel == Unknown <==> !IsImage(d) && !IsVideo(d)
    ensures v.rightsBadge == RightsBadge(v.talentRights)
    ensures v.ariaLabel == "Creative node, status: " + v.status + ", talent rights: " + v.talentRights
  {
    var status := OrElse(d.status, PASS);
    var rights := OrElse(d.talentRights, Active);
    var typeLabel := if IsImage(d) then Image else if IsVideo(d) then Video else Unknown;
    CreativeView(status, rights, BorderTone(status, rights == Expired), typeLabel, RightsBadge(rights),
                 "Creative node, status: " + status + ", talent rights: " + rights)
  }

  /** Case is ignored: an upper-case extension is found like a lower-case one. */
  lemma UpperCaseExtensionIsImage()
    ensures IsImage(CreativeData(None, None, None, Some("SHOT.JPG")))
  {
    assert Lower("SHOT.JPG") == "shot.jpg";
    assert OccursAt("shot.jpg", ".jpg", 4);
  }

  /** An image extension anywhere wins over a video extension. */
  lemma ImageWinsOverVideo()
    ensures var d := CreativeData(None, None, None, Some("clip.mp4.png"));
            IsVideo(d) && View(d).typeLabel == Image
  {
    var d := CreativeData(None, None, None, Some("clip.mp4.png"));
    assert Lower("clip.mp4.png") == "clip.mp4.png";
    assert OccursAt("clip.mp4.png", ".png", 8);
    assert OccursAt("clip.mp4.png", ".mp4", 4);
    assert Contains(Lower(d.url.value), ImageExtensions[2]);
    assert Contains(Lower(d.url.value), VideoExtensions[0]);
  }

  /** Without data the card is a green PASS card with active rights. */
  lemma EmptyDataDefaults()
    ensures var v := View(CreativeData(None, None, None, None));
            v.status == PASS && v.talentRights == Active && v.border == Green
            && v.rightsBadge == Green && v.typeLabel == Unknown
  {
  }
}
