/** The base-URL clean-up applied before every API call: the regular
    expression `/\/+$/` replaced by the empty string, i.e. the whole run of
    '/' characters at the end of the configured server URL is removed. */
module ServerUrl {

  predicate AllSlashes(s: string) {
    forall i :: 0 <= i < |s| ==> s[i] == '/'
  }

  predicate EndsInSlash(s: string) {
    |s| > 0 && s[|s| - 1] == '/'
  }

  /** The configured URL without its trailing slashes: a prefix of the input
      that does not end in '/', and everything it drops is '/'. */
  function Sanitize(url: string): (r: string)
    ensures |r| <= |url| && r == url[..|r|]
    ensures !EndsInSlash(r)
    ensures AllSlashes(url[|r|..])
    decreases |url|
  {
    if EndsInSlash(url) then Sanitize(url[..|url| - 1]) else url
  }

  /** The result is determined by the two promises alone: whenever the input
      is some `p` that does not end in '/' followed by a run of slashes, the
      result is exactly `p`. This is the meaning of the anchored pattern. */
  lemma SanitizeRemovesExactlyTrailingRun(p: string, slashes: string)
    requires !EndsInSlash(p)
    requires AllSlashes(slashes)
    ensures Sanitize(p + slashes) == p
  {
    var u := p + slashes;
    var r := Sanitize(u);
    assert forall k :: |r| <= k < |u| ==> u[k] == '/' by {
      forall k | |r| <= k < |u|
        ensures u[k] == '/'
      {
        assert u[k] == u[|r|..][k - |r|];
      }
    }
    assert |p| > 0 ==> u[|p| - 1] == p[|p| - 1];
    assert |r| > 0 ==> r[|r| - 1] == u[|r| - 1];
    assert forall k :: |p| <= k < |u| ==> u[k] == slashes[k - |p|];
    assert |r| == |p|;
  }

  /** Sanitizing twice is sanitizing once. */
  lemma SanitizeIdempotent(url: string)
    ensures Sanitize(Sanitize(url)) == Sanitize(url)
  {
    SanitizeRemovesExactlyTrailingRun(Sanitize(url), []);
    assert Sanitize(url) + [] == Sanitize(url);
  }

  /** Adding trailing slashes to the configured URL does not change the
      sanitized base. */
  lemma SanitizeIgnoresAddedSlashes(url: string, slashes: string)
    requires AllSlashes(slashes)
    ensures Sanitize(url + slashes) == Sanitize(url)
  {
    var r := Sanitize(url);
    var rest := url[|r|..] + slashes;
    assert AllSlashes(rest) by {
      forall i | 0 <= i < |rest|
        ensures rest[i] == '/'
      {
        if i < |url| - |r| {
          assert rest[i] == url[|r|..][i];
        } else {
          assert rest[i] == slashes[i - (|url| - |r|)];
        }
      }
    }
    assert url + slashes == r + rest;
    SanitizeRemovesExactlyTrailingRun(r, rest);
  }
}
