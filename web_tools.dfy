/**
 * The address `WebTools.open_url` opens (atlas.py:922-925): a URL without
 * an `http://` or `https://` prefix is given `https://`. Opening the page
 * (Selenium, or the default browser) is outside this model.
 */
module WebTools {
  predicate HasScheme(url: string) {
    "http://" <= url || "https://" <= url
  }

  function WithScheme(url: string): (r: string)
    ensures HasScheme(r)
    ensures |url| <= |r| && r[|r| - |url|..] == url
    ensures HasScheme(url) ==> r == url
    ensures !HasScheme(url) ==> r[..|r| - |url|] == "https://"
  {
    if HasScheme(url) then url else "https://" + url
  }

  /** Prefixing is done at most once: an address already prefixed is kept. */
  lemma WithSchemeIdempotent(url: string)
    ensures WithScheme(WithScheme(url)) == WithScheme(url)
  {
  }

  /** The scheme test is case-sensitive: an address starting with a capital
      letter, `HTTP://…` among them, is always given the prefix. */
  lemma SchemeCaseSensitive(url: string)
    requires url != [] && 'A' <= url[0] <= 'Z'
    ensures WithScheme(url) == "https://" + url
  {
    assert "http://"[0] == 'h' && "https://"[0] == 'h';
  }
}
