/** The target URL handed to the post-processing scripts (`home`). */
module HomeUrl {
  import opened Strings

  const Secure: string := "https://"

  /** Normalisation of the configured URL: unless the text `https://` occurs
      anywhere in it, the URL is wrapped as `https://` + url + `/`. The test is a
      substring test, not a scheme-prefix test. */
  function NormaliseHome(url: string): string
  {
    if Contains(url, Secure) then url else Secure + url + "/"
  }

  /** The normalised URL always contains `https://`. */
  lemma HomeIsSecure(url: string)
    ensures Contains(NormaliseHome(url), Secure)
  {
    if !Contains(url, Secure) {
      assert Secure + url + "/" == Secure + (url + "/");
      ContainsPrefix(Secure, url + "/");
    }
  }

  /** Normalising twice is normalising once. */
  lemma NormaliseIdempotent(url: string)
    ensures NormaliseHome(NormaliseHome(url)) == NormaliseHome(url)
  {
    HomeIsSecure(url);
  }

  /** A URL is left as it is exactly when `https://` occurs somewhere in it,
      which may be after its start. */
  lemma UnchangedIffSecureSomewhere(url: string)
    ensures NormaliseHome(url) == url <==> exists i :: OccursAt(url, Secure, i)
    ensures NormaliseHome(url) != url ==> NormaliseHome(url) == Secure + url + "/"
  {
    ContainsOccurs(url, Secure);
    if !Contains(url, Secure) {
      assert |NormaliseHome(url)| == |url| + 9;
    }
  }

  /** A bare host gets scheme and trailing slash. */
  lemma BareHost(url: string)
    requires url == "example.com"
    ensures NormaliseHome(url) == "https://example.com/"
  {
    assert forall i :: 0 <= i < |url| ==> url[i] != 'h';
    MissingFirstCharacter(url, Secure);
  }

  /** An `http://` URL is not recognised and is wrapped a second time. */
  lemma PlainHttpIsWrapped(url: string)
    requires url == "http://x"
    ensures NormaliseHome(url) == "https://http://x/"
  {
    assert url[4] != Secure[4];
    SameLengthContains(url, Secure);
  }

  /** A URL with `https://` after its start, such as a redirect parameter, is left as it is. */
  lemma EmbeddedSecureKept(url: string)
    requires url == "a.org/?to=https://b"
    ensures NormaliseHome(url) == url
  {
    assert OccursAt(url, Secure, 10);
    ContainsOccurs(url, Secure);
  }
}
