/** The floating contact panel: shown on the home page, the product pages and the contact
    pages, hidden elsewhere, and re-decided after every completed navigation. */
module Sticky {
  import opened Text

  /** The visibility rule for the url after redirects. */
  predicate Visible(url: string): (r: bool)
    ensures url == "/" ==> r
    ensures r ==> |url| > 0 && url[0] == '/'
    ensures r && url != "/" ==> |url| >= 9 && (url[1] == 'p' || url[1] == 'c')
  {
    assert |url| >= 9 ==> url[..9][0] == url[0] && url[..9][1] == url[1];
    StartsWith(url, "/products") || url == "/" || StartsWith(url, "/contact-us")
  }

  /** A url whose first character after the leading slash is neither `p` nor `c` is
      hidden; so is every url that does not start with a slash. */
  lemma HiddenOutsideTheThreeAreas(url: string)
    requires url == "" || url[0] != '/' || (|url| > 1 && url[1] != 'p' && url[1] != 'c')
    ensures !Visible(url)
  {
    if |url| >= 9 {
      assert url[..9][0] == url[0] && url[..9][1] == url[1];
    }
    if |url| >= 11 {
      assert url[..11][0] == url[0] && url[..11][1] == url[1];
    }
  }

  /** The cases the rule is meant to separate. */
  lemma VisibilityExamples()
    ensures Visible("/") && Visible("/products") && Visible("/products/abc") && Visible("/productsX")
    ensures Visible("/contact-us") && Visible("/contact-us?from=cart")
    ensures !Visible("/cart") && !Visible("/admin") && !Visible("/login") && !Visible("")
  {
    assert "/products/abc"[..9] == "/products";
    assert "/productsX"[..9] == "/products";
    assert "/contact-us?from=cart"[..11] == "/contact-us";
    HiddenOutsideTheThreeAreas("/admin");
    HiddenOutsideTheThreeAreas("/login");
  }

  class StickyPanel {
    var isVisible: bool

    constructor()
      ensures !isVisible
    {
      isVisible := false;
    }

    /** A `NavigationEnd` event: only its url counts, whatever was shown before. */
    method OnNavigationEnd(urlAfterRedirects: string)
      modifies this
      ensures isVisible == Visible(urlAfterRedirects)
    {
      isVisible := StartsWith(urlAfterRedirects, "/products") || urlAfterRedirects == "/"
                   || StartsWith(urlAfterRedirects, "/contact-us");
    }
  }
}
