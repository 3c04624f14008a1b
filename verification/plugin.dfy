/**
 * Plugin construction: defaults are merged with the user's partial
 * configuration, the portal domain is normalised and validated, the API
 * token is checked, and the resulting plugin appends one asset source to the
 * editor's list. Both checks throw in `bynderImageAsset`; here they are
 * the `Failure` outcomes of `Configure`.
 */
module Plugin {
  import opened Wrappers
  import opened Text
  import opened Types
  import PhotoTile

  /** The user's configuration: every field may be left out. */
  datatype PartialConfig = PartialConfig(
    name: Option<string>,
    apiToken: Option<string>,
    menuTitle: Option<string>,
    thumbnailTransformerName: Option<string>,
    portalDomain: Option<string>
  )

  const Defaults := BynderConfig(
    name := "bynder",
    apiToken := "",
    menuTitle := "Bynder",
    thumbnailTransformerName := "transformBaseUrl",
    portalDomain := ""
  )

  const PluginName := "asset-source-bynder-plugin"

  /** The errors plugin construction throws, checked in this order. */
  datatype ConfigError = InvalidPortalDomain | EmptyApiToken {
    function Message(): string {
      match this
      case InvalidPortalDomain => "portalDomain must be a valid url without path and query."
      case EmptyApiToken => "apiToken cannot be empty."
    }
  }

  /** An asset source as registered with the editor; its component closes over `config`. */
  datatype AssetSourceEntry = AssetSourceEntry(name: string, i18nKey: string, config: BynderConfig)

  /** The constructed plugin: its name and the validated configuration its asset source uses. */
  datatype BynderPlugin = BynderPlugin(name: string, config: BynderConfig)

  /** A complete configuration given as a partial one: every field supplied. */
  function ToPartial(c: BynderConfig): PartialConfig {
    PartialConfig(Some(c.name), Some(c.apiToken), Some(c.menuTitle), Some(c.thumbnailTransformerName), Some(c.portalDomain))
  }

  /** The default configuration overridden by every field the user supplied. */
  function Merge(user: PartialConfig): (c: BynderConfig)
    ensures user.name.None? ==> c.name == Defaults.name
    ensures user.apiToken.None? ==> c.apiToken == Defaults.apiToken
    ensures user.menuTitle.None? ==> c.menuTitle == Defaults.menuTitle
    ensures user.thumbnailTransformerName.None? ==> c.thumbnailTransformerName == Defaults.thumbnailTransformerName
    ensures user.portalDomain.None? ==> c.portalDomain == Defaults.portalDomain
    ensures user.name.Some? ==> c.name == user.name.value
    ensures user.apiToken.Some? ==> c.apiToken == user.apiToken.value
    ensures user.menuTitle.Some? ==> c.menuTitle == user.menuTitle.value
    ensures user.thumbnailTransformerName.Some? ==> c.thumbnailTransformerName == user.thumbnailTransformerName.value
    ensures user.portalDomain.Some? ==> c.portalDomain == user.portalDomain.value
  {
    BynderConfig(
      name := user.name.GetOr(Defaults.name),
      apiToken := user.apiToken.GetOr(Defaults.apiToken),
      menuTitle := user.menuTitle.GetOr(Defaults.menuTitle),
      thumbnailTransformerName := user.thumbnailTransformerName.GetOr(Defaults.thumbnailTransformerName),
      portalDomain := user.portalDomain.GetOr(Defaults.portalDomain)
    )
  }

  /** Supplying every field leaves no trace of the defaults; supplying none gives the defaults. */
  lemma MergeCompleteOrEmpty(c: BynderConfig)
    ensures Merge(ToPartial(c)) == c
    ensures Merge(PartialConfig(None, None, None, None, None)) == Defaults
  {
  }

  /**
   * Merging is field-wise: two partial configurations merge to the same
   * configuration exactly when every field is the same once its default is filled in.
   */
  lemma MergeFieldwise(u: PartialConfig, v: PartialConfig)
    ensures Merge(u) == Merge(v) <==>
      && u.name.GetOr(Defaults.name) == v.name.GetOr(Defaults.name)
      && u.apiToken.GetOr(Defaults.apiToken) == v.apiToken.GetOr(Defaults.apiToken)
      && u.menuTitle.GetOr(Defaults.menuTitle) == v.menuTitle.GetOr(Defaults.menuTitle)
      && u.thumbnailTransformerName.GetOr(Defaults.thumbnailTransformerName) == v.thumbnailTransformerName.GetOr(Defaults.thumbnailTransformerName)
      && u.portalDomain.GetOr(Defaults.portalDomain) == v.portalDomain.GetOr(Defaults.portalDomain)
  {
  }

  /* ------------------------------------------------------- Normalisation */

  /**
   * The test `/^https?:\/\//i`: the letters `http`, an optional `s`, in any
   * ASCII case, then `://` exactly.
   */
  predicate HasHttpScheme(d: string): (r: bool)
    ensures r <==> SchemeLetters(d)
    ensures StartsWith(d, "http://") || StartsWith(d, "https://") ==> r
  {
    SchemeLettersMatch(d);
    StartsWithIgnoringCase(d, "http://") || StartsWithIgnoringCase(d, "https://")
  }

  /** The scheme test character by character: `HTTP` in any case, an optional `S`, then `://` as it is. */
  predicate SchemeLetters(d: string) {
    && |d| >= 7
    && UpperAscii(d[0]) == 'H' && UpperAscii(d[1]) == 'T' && UpperAscii(d[2]) == 'T' && UpperAscii(d[3]) == 'P'
    && ((d[4] == ':' && d[5] == '/' && d[6] == '/')
        || (|d| >= 8 && UpperAscii(d[4]) == 'S' && d[5] == ':' && d[6] == '/' && d[7] == '/'))
  }

  lemma SchemeLettersMatch(d: string)
    ensures StartsWithIgnoringCase(d, "http://") || StartsWithIgnoringCase(d, "https://") <==> SchemeLetters(d)
    ensures StartsWith(d, "http://") || StartsWith(d, "https://") ==> SchemeLetters(d)
  {
    var p, q := "http://", "https://";
    assert UpperAscii('h') == 'H' && UpperAscii('t') == 'T' && UpperAscii('p') == 'P' && UpperAscii('s') == 'S';
    assert UpperAscii(':') == ':' && UpperAscii('/') == '/';
    if StartsWithIgnoringCase(d, p) {
      assert EqualIgnoringAsciiCase(d[4], p[4]) && EqualIgnoringAsciiCase(d[5], p[5]) && EqualIgnoringAsciiCase(d[6], p[6]);
    }
    if StartsWithIgnoringCase(d, q) {
      assert EqualIgnoringAsciiCase(d[5], q[5]) && EqualIgnoringAsciiCase(d[6], q[6]) && EqualIgnoringAsciiCase(d[7], q[7]);
    }
    if SchemeLetters(d) {
      if d[4] == ':' && d[5] == '/' && d[6] == '/' {
        assert forall i :: 0 <= i < |p| ==> EqualIgnoringAsciiCase(d[i], p[i]);
      } else {
        assert forall i :: 0 <= i < |q| ==> EqualIgnoringAsciiCase(d[i], q[i]);
      }
    }
  }

  /**
   * The normalised portal domain: `https://` is put in front of a domain
   * without a scheme, then `/` is added unless the domain already ends with
   * one. `r` is the shortest text that starts with the schemed domain and ends with `/`.
   */
  function NormalizeDomain(d: string): (r: string)
    ensures EndsWith(r, '/')
    ensures HasHttpScheme(r)
    ensures var schemed := if HasHttpScheme(d) then d else "https://" + d;
      && StartsWith(r, schemed)
      && |schemed| <= |r| <= |schemed| + 1
      && (|r| == |schemed| <==> EndsWith(schemed, '/'))
  {
    var schemed := if HasHttpScheme(d) then d else "https://" + d;
    assert HasHttpScheme(schemed) by {
      if !HasHttpScheme(d) {
        StartsWithIgnoresCase(schemed, "https://");
      }
    }
    var r := if EndsWith(schemed, '/') then schemed else schemed + "/";
    assert StartsWith(r, schemed) by {
      assert r[..|schemed|] == schemed;
    }
    assert HasHttpScheme(r) by {
      assert forall i :: 0 <= i < |schemed| ==> r[i] == schemed[i];
    }
    r
  }

  /** A domain without a scheme gets exactly `https://` in front; one with a scheme keeps its text. */
  lemma NormalizeKeepsOrAddsScheme(d: string)
    ensures !HasHttpScheme(d) ==> StartsWith(NormalizeDomain(d), "https://" + d)
    ensures HasHttpScheme(d) ==> StartsWith(NormalizeDomain(d), d)
    ensures EndsWith(d, '/') ==> NormalizeDomain(d) == (if HasHttpScheme(d) then d else "https://" + d)
  {
    if !HasHttpScheme(d) && EndsWith(d, '/') {
      var schemed := "https://" + d;
      assert schemed[|schemed| - 1] == d[|d| - 1];
    }
  }

  /** Normalising a normalised domain changes nothing. */
  lemma NormalizeIdempotent(d: string)
    ensures NormalizeDomain(NormalizeDomain(d)) == NormalizeDomain(d)
  {
    var r := NormalizeDomain(d);
    var rr := NormalizeDomain(r);
    assert StartsWith(rr, r) && |rr| == |r|;
  }

  /* ---------------------------------------------------------- Validation */

  /** A host as the pattern `[^/]+` matches it: any non-empty text without `/`, `?` included. */
  predicate IsHost(h: string) {
    |h| > 0 && '/' !in h
  }

  /** Reference reading of `/^https?:\/\/[^/]+\/$/`: a lower-case scheme, a host, one final `/`. */
  ghost predicate PortalDomainShape(d: string) {
    exists h :: IsHost(h) && (d == "http://" + h + "/" || d == "https://" + h + "/")
  }

  /** `d[k..]` is a host followed by a single final `/`. */
  predicate HostThenSlash(d: string, k: nat) {
    |d| >= k + 2 && d[|d| - 1] == '/' && IsHost(d[k..|d| - 1])
  }

  lemma HostThenSlashShape(d: string, scheme: string)
    requires StartsWith(d, scheme) && HostThenSlash(d, |scheme|)
    ensures d == scheme + d[|scheme|..|d| - 1] + "/"
  {
    assert d == d[..|scheme|] + d[|scheme|..|d| - 1] + [d[|d| - 1]];
  }

  lemma ShapeHostThenSlash(h: string, scheme: string)
    requires IsHost(h)
    ensures var d := scheme + h + "/"; StartsWith(d, scheme) && HostThenSlash(d, |scheme|)
  {
    var d := scheme + h + "/";
    assert d[..|scheme|] == scheme;
    assert d[|scheme|..|d| - 1] == h;
  }

  /** The case-sensitive validator `/^https?:\/\/[^/]+\/$/.test(d)`. */
  function MatchesDomainPattern(d: string): (ok: bool)
    ensures ok <==> PortalDomainShape(d)
  {
    var ok := (StartsWith(d, "https://") && HostThenSlash(d, 8)) || (StartsWith(d, "http://") && HostThenSlash(d, 7));
    assert ok ==> PortalDomainShape(d) by {
      if StartsWith(d, "https://") && HostThenSlash(d, 8) {
        HostThenSlashShape(d, "https://");
        assert IsHost(d[8..|d| - 1]);
      } else if ok {
        HostThenSlashShape(d, "http://");
        assert IsHost(d[7..|d| - 1]);
      }
    }
    assert PortalDomainShape(d) ==> ok by {
      if PortalDomainShape(d) {
        var h :| IsHost(h) && (d == "http://" + h + "/" || d == "https://" + h + "/");
        if d == "http://" + h + "/" {
          ShapeHostThenSlash(h, "http://");
        } else {
          ShapeHostThenSlash(h, "https://");
        }
      }
    }
    ok
  }

  /* -------------------------------------------------------- Construction */

  /** `bynderAssetSource(config)`: the asset source named after the configuration. */
  function BynderAssetSource(config: BynderConfig): AssetSourceEntry {
    AssetSourceEntry(config.name, config.menuTitle, config)
  }

  /**
   * `bynderImageAsset(user)`: the plugin, or the first configuration error.
   * The domain is validated after normalisation and before the token.
   */
  function Configure(user: PartialConfig): (r: Result<BynderPlugin, ConfigError>)
    ensures var merged := Merge(user);
      var domain := NormalizeDomain(merged.portalDomain);
      && (r.Success? <==> PortalDomainShape(domain) && merged.apiToken != "")
      && (r == Failure(InvalidPortalDomain) <==> !PortalDomainShape(domain))
      && (r == Failure(EmptyApiToken) <==> PortalDomainShape(domain) && merged.apiToken == "")
      && (r.Success? ==> r.value == BynderPlugin(PluginName, merged.(portalDomain := domain)))
  {
    var merged := Merge(user);
    var domain := NormalizeDomain(merged.portalDomain);
    if !MatchesDomainPattern(domain) then Failure(InvalidPortalDomain)
    else if merged.apiToken == "" then Failure(EmptyApiToken)
    else Success(BynderPlugin(PluginName, merged.(portalDomain := domain)))
  }

  /**
   * The plugin's `form.image.assetSources` hook: the previous sources, then
   * exactly one more, named after the configuration.
   */
  function AssetSources(plugin: BynderPlugin, prev: seq<AssetSourceEntry>): (r: seq<AssetSourceEntry>)
    ensures |r| == |prev| + 1 && r[..|prev|] == prev
    ensures r[|prev|].name == plugin.config.name && r[|prev|].i18nKey == plugin.config.menuTitle
    ensures r[|prev|].config == plugin.config
  {
    prev + [BynderAssetSource(plugin.config)]
  }

  /* ------------------------------------------------- Consequences, cases */

  /** A successfully built plugin's domain is normalised and of the validated shape, and its token is non-empty. */
  lemma ConfiguredPluginIsValid(user: PartialConfig)
    requires Configure(user).Success?
    ensures var c := Configure(user).value.config;
      && PortalDomainShape(c.portalDomain) && EndsWith(c.portalDomain, '/')
      && NormalizeDomain(c.portalDomain) == c.portalDomain
      && c.apiToken != ""
  {
    NormalizeIdempotent(Merge(user).portalDomain);
  }

  /** With both the domain and the token bad, the domain error is the one raised. */
  lemma DomainCheckedBeforeToken(user: PartialConfig)
    requires !PortalDomainShape(NormalizeDomain(Merge(user).portalDomain))
    requires Merge(user).apiToken == ""
    ensures Configure(user) == Failure(InvalidPortalDomain)
  {
  }

  /** `d` does not start with an `http` scheme in any case, shown by its first character. */
  lemma NoSchemeByFirstChar(d: string)
    requires |d| > 0 && UpperAscii(d[0]) != 'H'
    ensures !HasHttpScheme(d)
  {
    assert !EqualIgnoringAsciiCase(d[0], "http://"[0]);
    assert !EqualIgnoringAsciiCase(d[0], "https://"[0]);
  }

  /**
   * The default empty domain normalises to `https://` (the added scheme
   * already ends with `/`), whose host is empty, so it is rejected.
   */
  lemma DefaultDomainRejected(user: PartialConfig)
    requires user.portalDomain.None?
    ensures NormalizeDomain(Merge(user).portalDomain) == "https://"
    ensures Configure(user) == Failure(InvalidPortalDomain)
  {
    assert !HasHttpScheme("") by {
      assert !StartsWithIgnoringCase("", "http://");
      assert !StartsWithIgnoringCase("", "https://");
    }
    assert "https://" + "" == "https://";
    assert !MatchesDomainPattern("https://");
  }

  /** A domain without a scheme gets `https://` and, unless it already ends with one, a final `/`. */
  lemma NormalizeUnschemed(d: string)
    requires !HasHttpScheme(d)
    ensures d == "" ==> NormalizeDomain(d) == "https://"
    ensures d != "" && EndsWith(d, '/') ==> NormalizeDomain(d) == "https://" + d
    ensures d != "" && !EndsWith(d, '/') ==> NormalizeDomain(d) == "https://" + d + "/"
  {
    var schemed := "https://" + d;
    var r := NormalizeDomain(d);
    assert r[..|schemed|] == schemed;
    if d != "" {
      assert schemed[|schemed| - 1] == d[|d| - 1];
    }
    if |r| == |schemed| {
      assert r == r[..|schemed|];
    } else {
      assert r == r[..|schemed|] + [r[|r| - 1]];
    }
  }

  /**
   * Which domains without a scheme are accepted: exactly a host, optionally
   * followed by one `/`. Any other `/`, so any path, is rejected; `?` is not.
   */
  lemma {:induction false} UnschemedDomainAccepted(d: string)
    requires !HasHttpScheme(d)
    ensures PortalDomainShape(NormalizeDomain(d)) <==> IsHost(d) || (EndsWith(d, '/') && IsHost(d[..|d| - 1]))
  {
    NormalizeUnschemed(d);
    var n := NormalizeDomain(d);
    assert !StartsWith(n, "http://") by {
      assert n[4] == 's';
    }
    if d == "" {
      assert !MatchesDomainPattern(n);
    } else if EndsWith(d, '/') {
      assert n[8..|n| - 1] == d[..|d| - 1];
      assert !IsHost(d) by {
        assert d[|d| - 1] == '/';
      }
      assert StartsWith(n, "https://");
    } else {
      assert n[8..|n| - 1] == d;
      assert StartsWith(n, "https://");
    }
  }

  /** A path survives normalisation and is then rejected. */
  lemma PathRejected(d: string, k: int)
    requires !HasHttpScheme(d)
    requires 0 <= k < |d| - 1 && d[k] == '/'
    ensures !PortalDomainShape(NormalizeDomain(d))
  {
    UnschemedDomainAccepted(d);
    assert d[..|d| - 1][k] == '/';
  }

  /** For instance `example.com/path`, which becomes `https://example.com/path/`. */
  lemma ExamplePathRejected()
    ensures !PortalDomainShape(NormalizeDomain("example.com/path"))
  {
    NoSchemeByFirstChar("example.com/path");
    PathRejected("example.com/path", 11);
  }

  /** An upper-case scheme passes the case-insensitive prefix test unchanged and then fails the case-sensitive validator. */
  lemma UpperCaseSchemeRejected(h: string)
    requires IsHost(h)
    ensures NormalizeDomain("HTTPS://" + h) == "HTTPS://" + h + "/"
    ensures !PortalDomainShape("HTTPS://" + h + "/")
  {
    var d := "HTTPS://" + h;
    assert d[..8] == "HTTPS://";
    assert StartsWithIgnoringCase(d, "https://");
    assert !EndsWith(d, '/') by {
      assert d[|d| - 1] == h[|h| - 1];
    }
    var r := NormalizeDomain(d);
    assert r == r[..|d|] + [r[|r| - 1]];
    var n := d + "/";
    assert n[0] == 'H';
    assert !StartsWith(n, "https://") && !StartsWith(n, "http://");
    assert !MatchesDomainPattern(n);
  }

  /** The validator lets a query string through, although its message says otherwise. */
  lemma QueryAccepted(h: string, k: int)
    requires !HasHttpScheme(h) && IsHost(h)
    requires 0 <= k < |h| && h[k] == '?'
    ensures NormalizeDomain(h) == "https://" + h + "/"
    ensures PortalDomainShape(NormalizeDomain(h))
  {
    NormalizeUnschemed(h);
    UnschemedDomainAccepted(h);
    assert !EndsWith(h, '/') by {
      assert h[|h| - 1] != '/';
    }
  }

  /**
   * The thumbnail a tile of a constructed plugin shows: the entry under the
   * user's transformer name, or under `transformBaseUrl` when none was
   * given, and no image when the photo lacks that entry.
   */
  lemma TileThumbnail(user: PartialConfig, photo: BynderPhoto)
    requires Configure(user).Success?
    ensures var name := user.thumbnailTransformerName.GetOr("transformBaseUrl");
      PhotoTile.ThumbnailSrc(photo, Configure(user).value.config.thumbnailTransformerName)
        == (if name in photo.thumbnails then Some(photo.thumbnails[name]) else None)
  {
  }
}
