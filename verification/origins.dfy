/**
 * The CORS origin list: the two local development origins, then the
 * comma-separated `FRONTEND_URLS` entries, each stripped of surrounding
 * whitespace, blank entries dropped.
 */
module Origins {

  import opened Text

  const DefaultOrigins: seq<string> := ["http://localhost:3000", "http://127.0.0.1:3000"]

  /** `[url.strip() for url in pieces if url.strip()]`. */
  function Configured(pieces: seq<string>): (r: seq<string>)
    ensures |r| <= |pieces|
    ensures forall i :: 0 <= i < |r| ==> r[i] != []
  {
    if pieces == [] then []
    else (if Strip(pieces[0]) != [] then [Strip(pieces[0])] else []) + Configured(pieces[1..])
  }

  function AllowedOrigins(frontendUrls: string): (r: seq<string>)
    ensures |r| >= |DefaultOrigins| && r[..|DefaultOrigins|] == DefaultOrigins
    ensures forall i :: |DefaultOrigins| <= i < |r| ==> r[i] != []
  {
    if frontendUrls == [] then DefaultOrigins
    else DefaultOrigins + Configured(Split(frontendUrls, ','))
  }

  /** An origin as an administrator would write it: non-empty, no comma, no surrounding whitespace. */
  predicate CleanOrigin(url: string) {
    url != [] && ',' !in url && Strip(url) == url
  }

  /** Entries that are already clean pass through unchanged and in order. */
  lemma {:induction false} ConfiguredKeepsClean(urls: seq<string>)
    requires forall i :: 0 <= i < |urls| ==> CleanOrigin(urls[i])
    ensures Configured(urls) == urls
  {
    if urls != [] {
      ConfiguredKeepsClean(urls[1..]);
      assert urls == [urls[0]] + urls[1..];
    }
  }

  /** Blank entries contribute nothing. */
  lemma {:induction false} ConfiguredDropsBlank(pieces: seq<string>)
    requires forall i :: 0 <= i < |pieces| ==> AllSpace(pieces[i])
    ensures Configured(pieces) == []
  {
    if pieces != [] {
      StripEmptyIffAllSpace(pieces[0]);
      ConfiguredDropsBlank(pieces[1..]);
    }
  }

  /** The entries parsed from clean origins joined by commas are those origins. */
  lemma ConfiguredRoundTrip(urls: seq<string>)
    requires |urls| >= 1
    requires forall i :: 0 <= i < |urls| ==> CleanOrigin(urls[i])
    ensures Join(urls, ',') != []
    ensures Configured(Split(Join(urls, ','), ',')) == urls
  {
    JoinNonEmpty(urls, ',');
    SplitJoin(urls, ',');
    ConfiguredKeepsClean(urls);
  }

  /**
   * Writing a list of clean origins into the variable separated by commas
   * allows exactly those origins after the two defaults.
   */
  lemma AllowedOriginsRoundTrip(urls: seq<string>)
    requires |urls| >= 1
    requires forall i :: 0 <= i < |urls| ==> CleanOrigin(urls[i])
    ensures AllowedOrigins(Join(urls, ',')) == DefaultOrigins + urls
  {
    ConfiguredRoundTrip(urls);
  }

  /** A variable made only of commas and whitespace allows only the defaults. */
  lemma BlankVariableKeepsDefaults(frontendUrls: string)
    requires forall i :: 0 <= i < |frontendUrls| ==> frontendUrls[i] == ',' || IsSpace(frontendUrls[i])
    ensures AllowedOrigins(frontendUrls) == DefaultOrigins
  {
    if frontendUrls != [] {
      var pieces := Split(frontendUrls, ',');
      forall k | 0 <= k < |pieces| ensures AllSpace(pieces[k]) {
        PiecesOfBlank(frontendUrls, k);
      }
      ConfiguredDropsBlank(pieces);
    }
  }

  /** Every piece of a string of commas and whitespace is whitespace. */
  lemma {:induction false} PiecesOfBlank(s: string, k: nat)
    requires forall i :: 0 <= i < |s| ==> s[i] == ',' || IsSpace(s[i])
    requires k < |Split(s, ',')|
    ensures AllSpace(Split(s, ',')[k])
  {
    if s != [] {
      var rest := Split(s[1..], ',');
      if s[0] == ',' {
        if k > 0 { PiecesOfBlank(s[1..], k - 1); }
      } else if k == 0 {
        PiecesOfBlank(s[1..], 0);
        var p := [s[0]] + rest[0];
        assert forall i :: 0 < i < |p| ==> p[i] == rest[0][i - 1];
      } else {
        PiecesOfBlank(s[1..], k);
      }
    }
  }
}
