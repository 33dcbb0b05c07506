/**
 * `FloatingPaper`: a certificate or paper panel. When selected it shows an open button;
 * the button raises a confirmation prompt whose "Yes" opens the paper's web link, or its
 * PDF when it has no web link, in a new tab.
 */
module FloatingPaper {
  import opened Wrappers
  import opened Vectors
  import opened Smoothing
  import opened Selection
  import opened Text
  import opened Panels
  import opened Host

  const Factor: real := 0.12

  /** `a || b` on two optional strings. */
  function Or(a: Option<string>, b: Option<string>): (r: Option<string>)
  {
    if Truthy(a) then a else b
  }

  /** What "Yes" opens: the web link if it is set, else the PDF if it is set, else nothing. */
  function OpenTarget(webUrl: Option<string>, pdfUrl: Option<string>): (r: Option<string>)
    ensures r.Some? ==> Truthy(r)
  {
    if Truthy(webUrl) then webUrl
    else if Truthy(pdfUrl) then pdfUrl
    else None
  }

  /** The urls "Yes" passes to `window.open`, in order: none or one. */
  function Opened(target: Option<string>): (urls: seq<string>)
    ensures |urls| <= 1
    ensures target.Some? ==> urls == [target.value]
    ensures target.None? ==> urls == []
  {
    if target.Some? then [target.value] else []
  }

  /** The open target, stated case by case: the web link wins, the PDF is the fallback. */
  lemma OpenTargetCases(webUrl: Option<string>, pdfUrl: Option<string>)
    ensures Truthy(webUrl) ==> OpenTarget(webUrl, pdfUrl) == webUrl
    ensures !Truthy(webUrl) && Truthy(pdfUrl) ==> OpenTarget(webUrl, pdfUrl) == pdfUrl
    ensures OpenTarget(webUrl, pdfUrl).None? <==> !Truthy(webUrl) && !Truthy(pdfUrl)
  {
  }

  /** The label of the open button. */
  function OpenLabel(webUrl: Option<string>): string
  {
    if Truthy(webUrl) then "Verify" else "Open Paper"
  }

  /** The button reads "Verify" exactly when "Yes" would open the web link. */
  lemma LabelNamesTarget(webUrl: Option<string>, pdfUrl: Option<string>)
    ensures OpenLabel(webUrl) == "Verify" <==> OpenTarget(webUrl, pdfUrl).Some? && OpenTarget(webUrl, pdfUrl) == webUrl
  {
  }

  /** A string in a template literal: `null` prints as "null". */
  function Shown(s: Option<string>): string
  {
    if s.Some? then s.value else "null"
  }

  /** The text of the confirmation prompt. */
  function PromptText(webUrl: Option<string>, pdfUrl: Option<string>): string
  {
    "Redirecting to:\n" + Shown(Or(webUrl, pdfUrl)) + "\nProceed?"
  }

  /** Whenever "Yes" opens a url, the prompt names that same url. */
  lemma PromptNamesTarget(webUrl: Option<string>, pdfUrl: Option<string>)
    requires OpenTarget(webUrl, pdfUrl).Some?
    ensures PromptText(webUrl, pdfUrl) == "Redirecting to:\n" + OpenTarget(webUrl, pdfUrl).value + "\nProceed?"
  {
  }

  /** A paper with neither link prompts about "null" (or an empty link) and "Yes" opens nothing. */
  lemma NoLinkPrompt()
    ensures PromptText(None, None) == "Redirecting to:\nnull\nProceed?"
    ensures OpenTarget(None, None) == None && OpenTarget(Some(""), None) == None
  {
  }

  predicate OpenButtonShown(expanded: bool, confirming: bool)
  {
    expanded && !confirming
  }

  predicate PromptShown(expanded: bool, confirming: bool)
  {
    expanded && confirming
  }

  /** The open button and the prompt never show together, and a selected paper shows one of them. */
  lemma OneControlAtATime(expanded: bool, confirming: bool)
    ensures !(OpenButtonShown(expanded, confirming) && PromptShown(expanded, confirming))
    ensures expanded <==> OpenButtonShown(expanded, confirming) || PromptShown(expanded, confirming)
  {
  }

  function ScaleTarget(expanded: bool): real
  {
    if expanded then 1.2 else 1.0
  }

  /** Where the paper heads this frame: up by `bob` and, while selected, 0.8 back along the view direction. */
  function TargetPosition(basePos: Vec3, bob: real, cameraDir: Vec3, expanded: bool): Vec3
  {
    var bobbed := basePos.(y := basePos.y + bob);
    if expanded then Add(bobbed, Scale(cameraDir, -0.8)) else bobbed
  }

  lemma ScaleStaysInBand(cur: real, expanded: bool)
    requires 1.0 <= cur <= 1.2
    ensures 1.0 <= FallbackStep(cur, 1.0, ScaleTarget(expanded), Factor) <= 1.2
  {
    assert Between(Step(cur, ScaleTarget(expanded), Factor), cur, ScaleTarget(expanded));
  }

  class PaperPanel {
    const uniqueId: string
    const content: Content
    const webUrl: Option<string>
    const pdfUrl: Option<string>
    const basePos: Vec3
    var confirming: bool
    var position: Vec3
    var scale: real

    constructor (url: string, id: Option<string>, pdfUrl: Option<string>, webUrl: Option<string>,
                 contents: map<string, Content>, position: Vec3)
      requires "default" in contents
      ensures uniqueId == DeriveId(id, url)
      ensures content == LookupContent(contents, ContentKey(id, url))
      ensures this.webUrl == webUrl && this.pdfUrl == pdfUrl
      ensures !confirming
      ensures basePos == position && this.position == position && scale == 1.0
    {
      uniqueId := DeriveId(id, url);
      content := LookupContent(contents, ContentKey(id, url));
      this.webUrl := webUrl;
      this.pdfUrl := pdfUrl;
      basePos := position;
      this.position := position;
      scale := 1.0;
      confirming := false;
    }

    function Expanded(registry: Registry): (b: bool)
      reads registry
      ensures b <==> registry.selectedId == Some(uniqueId)
    {
      registry.IsSelected(uniqueId)
    }

    /** Selecting or deselecting the paper leaves the prompt state as it was. */
    method HandleClick(registry: Registry)
      modifies registry
      ensures registry.selectedId == AfterSelect(old(registry.selectedId), uniqueId)
      ensures confirming == old(confirming)
    {
      registry.Select(uniqueId);
    }

    /** The open button raises the prompt. */
    method HandleOpenClick()
      modifies this
      ensures confirming
      ensures position == old(position) && scale == old(scale)
    {
      confirming := true;
    }

    /** "Yes": the prompt closes and at most one tab opens, on the open target. */
    method HandleConfirmYes(browser: Browser)
      modifies this, browser
      ensures !confirming
      ensures browser.openedUrls == old(browser.openedUrls) + Opened(OpenTarget(webUrl, pdfUrl))
      ensures position == old(position) && scale == old(scale)
    {
      confirming := false;
      if Truthy(webUrl) {
        browser.Open(webUrl.value);
      } else if Truthy(pdfUrl) {
        browser.Open(pdfUrl.value);
      }
    }

    /** "No": the prompt closes and nothing opens. */
    method HandleConfirmNo()
      modifies this
      ensures !confirming
      ensures position == old(position) && scale == old(scale)
    {
      confirming := false;
    }

    method Frame(registry: Registry, bob: real, cameraDir: Vec3)
      modifies this
      ensures position == StepVec(old(position), TargetPosition(basePos, bob, cameraDir, Expanded(registry)), Factor)
      ensures scale == FallbackStep(old(scale), 1.0, ScaleTarget(Expanded(registry)), Factor)
      ensures 1.0 <= old(scale) <= 1.2 ==> 1.0 <= scale <= 1.2
      ensures confirming == old(confirming)
    {
      var expanded := registry.IsSelected(uniqueId);
      var target := basePos;
      target := target.(y := target.y + bob);
      if expanded {
        target := Add(target, Scale(cameraDir, -0.8));
      }
      position := StepVec(position, target, Factor);
      var desired := if expanded then 1.2 else 1.0;
      var cur := if scale == 0.0 then 1.0 else scale;
      if 1.0 <= scale <= 1.2 {
        ScaleStaysInBand(scale, expanded);
      }
      scale := Step(cur, desired, Factor);
    }
  }
}
