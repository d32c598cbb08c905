/**
 * The asset directory's read side: the asset list's status and free-text
 * filter, and the public lookup of an asset by its QR token.
 */
module Directory {
  import opened Wrappers
  import opened PyStr
  import opened Models

  /**
   * The asset list's filter on one asset (joined with its site's name):
   * a non-empty stripped status parameter must equal the asset's status
   * code, and a non-empty stripped query must occur, ignoring case, in the
   * name, type, serial, site name or vendor.
   */
  function AssetMatches(a: Asset, siteName: string, statusParam: string, queryParam: string): (r: bool)
    ensures AllSpace(statusParam) && AllSpace(queryParam) ==> r
    ensures r <==>
              && (AllSpace(statusParam) || a.status.Code() == Strip(statusParam))
              && (AllSpace(queryParam)
                  || OccursIgnoringCase(Strip(queryParam), a.name)
                  || OccursIgnoringCase(Strip(queryParam), a.assetType)
                  || OccursIgnoringCase(Strip(queryParam), a.serial)
                  || OccursIgnoringCase(Strip(queryParam), siteName)
                  || OccursIgnoringCase(Strip(queryParam), a.vendor))
  {
    var status := Strip(statusParam);
    var query := Strip(queryParam);
    && (status == [] || a.status.Code() == status)
    && (query == [] || IContains(a.name, query) || IContains(a.assetType, query)
                    || IContains(a.serial, query) || IContains(siteName, query)
                    || IContains(a.vendor, query))
  }

  /** A query that occurs in the site's name alone still finds the asset (a cross-entity search). */
  lemma SiteNameFindsAsset(a: Asset, siteName: string, queryParam: string, i: int)
    requires Occurs(Lower(Strip(queryParam)), Lower(siteName), i)
    ensures AssetMatches(a, siteName, "", queryParam)
  {
    ContainsIff(Lower(siteName), Lower(Strip(queryParam)));
  }

  /** An asset's own name, in any letter case, finds it when no status is asked for. */
  lemma NameFindsAsset(a: Asset, siteName: string)
    requires Trimmed(a.name)
    ensures AssetMatches(a, siteName, "", a.name)
  {
    IContainsSelf(a.name);
  }

  /** The assets the asset list shows, in the given order (each joined with its site). */
  function FilterAssets(assets: seq<Asset>, sites: map<Id, Site>, statusParam: string, queryParam: string)
    : (r: seq<Asset>)
    requires forall k :: 0 <= k < |assets| ==> assets[k].site in sites
    ensures forall a :: a in r <==>
              a in assets && AssetMatches(a, sites[a.site].name, statusParam, queryParam)
    ensures |r| <= |assets|
  {
    if assets == [] then []
    else
      var rest := FilterAssets(assets[1..], sites, statusParam, queryParam);
      assert forall a :: a in assets <==> a == assets[0] || a in assets[1..];
      if AssetMatches(assets[0], sites[assets[0].site].name, statusParam, queryParam)
      then [assets[0]] + rest
      else rest
  }

  /** `get_object_or_404(Asset, qr_token=token)`: the asset with that token, or not found. */
  function FindByToken(assets: seq<Asset>, token: Uuid): (r: Option<Asset>)
    ensures r.Some? ==> r.value in assets && r.value.qrToken == token
    ensures r.None? <==> forall k :: 0 <= k < |assets| ==> assets[k].qrToken != token
  {
    if assets == [] then None
    else if assets[0].qrToken == token then Some(assets[0])
    else
      var r := FindByToken(assets[1..], token);
      assert forall k :: 1 <= k < |assets| ==> assets[k] == assets[1..][k - 1];
      r
  }

  /**
   * Under the uniqueness of tokens, the public address of an asset leads
   * back to exactly that asset.
   */
  lemma QrUrlFindsAsset(assets: seq<Asset>, k: int, baseUrl: string)
    requires TokensUnique(assets) && 0 <= k < |assets|
    ensures var t := TokenOfUrl(baseUrl, QrUrl(baseUrl, assets[k].qrToken));
            t.Some? && FindByToken(assets, t.value) == Some(assets[k])
  {
    QrUrlNamesToken(baseUrl, assets[k].qrToken, assets[k].qrToken);
    var r := FindByToken(assets, assets[k].qrToken);
    var j :| 0 <= j < |assets| && assets[j] == r.value;
    assert assets[j].qrToken == assets[k].qrToken;
  }
}
