/** The page `_portal_redirect_html` in services/onboarding_service.py builds, and what its marker
  does for the refresh of the routers' login pages. */
module PortalPage {
  import opened Text
  import opened PortalRefresh

  // ------------------------------------------------------------------ the page

  /** The page's other fixed text, whatever it says: `body` is what stands between the refresh and
    the button, `end` what stands after it. */
  datatype Design = Design(body: string, end: string)

  /** The document up to the element that names the page's owner. */
  function PageStart(): string {
    "<!doctype html><html lang=\"en\"><head><meta charset=\"utf-8\">"
    + "<meta name=\"viewport\" content=\"width=device-width,initial-scale=1\">"
    + "<meta http-equiv=\"cache-control\" content=\"no-store\">"
  }

  function EscapedUrl(url: string): string { ReplaceChar(url, '&', "&amp;") }

  function BeforeMarker(): string { PageStart() + "<meta name=\"" }

  function AfterMarker(url: string, design: Design): string {
    "\" content=\"1\"><meta http-equiv=\"refresh\" content=\"0;url=" + EscapedUrl(url) + "\">" + design.body
    + "<a class=\"button\" href=\"" + EscapedUrl(url) + "\">Continue manually</a>" + design.end
  }

  function RedirectPage(url: string, design: Design): string { BeforeMarker() + MARKER + AfterMarker(url, design) }

  /** Whatever URL it sends the customer to, and whatever it looks like, the page carries the marker. */
  lemma PageCarriesTheMarker(url: string, design: Design)
    ensures Contains(RedirectPage(url, design), MARKER)
  {
    hide Contains, BeforeMarker, AfterMarker;
    ContainsMiddle(BeforeMarker(), MARKER, AfterMarker(url, design));
  }

  // ------------------------------------------------------------------ the URL in the page

  /** What a browser makes of the text of an attribute, as far as ampersands go. */
  function ReadAttribute(s: string): string {
    if s == "" then ""
    else if "&amp;" <= s then "&" + ReadAttribute(s[5..])
    else [s[0]] + ReadAttribute(s[1..])
  }

  /** The browser reads the URL back, whatever ampersands or entities it holds. */
  lemma {:induction false} UrlReadsBack(url: string)
    ensures ReadAttribute(EscapedUrl(url)) == url
  {
    if url != "" {
      var c, rest := url[0], EscapedUrl(url[1..]);
      UrlReadsBack(url[1..]);
      if c == '&' {
        assert EscapedUrl(url) == "&amp;" + rest && ("&amp;" + rest)[5..] == rest;
      } else {
        assert EscapedUrl(url) == [c] + rest && ([c] + rest)[1..] == rest && ([c] + rest)[0] == c;
      }
    }
  }

  // ------------------------------------------------------------------ refreshing twice

  /** The pages the refresh writes can be written again and again, also when the design has changed
    in between: see `Repeatable`. */
  lemma PortalRefreshIsIdempotent(url: string, design: Design)
    ensures Repeatable(RedirectPage(url, design))
  {
    hide RedirectPage, Contains;
    PageCarriesTheMarker(url, design);
    MarkedPagesRepeat(RedirectPage(url, design));
  }
}
