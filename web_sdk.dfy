/**
 * The objects of the Google Maps JavaScript SDK and of the DOM that the web
 * plugin holds, as opaque handles, and the tile-URL template that
 * `addTileOverlay` gives to an `ImageMapType`.
 */
module WebSdk {
  import opened Wrappers
  import opened Text
  import opened Json

  /** A JavaScript object owned by the SDK or the DOM. */
  class JsObject {
    const options: Json

    constructor (options: Json)
      ensures this.options == options
    {
      this.options := options;
    }
  }

  /** `google.maps.ImageMapType`, the tile layer built by `addTileOverlay`. */
  class ImageMapType {
    const url: string
    const opacity: Option<real>
    /** The width and height of a tile, in pixels. */
    const tileSize: nat

    constructor (url: string, opacity: Option<real>)
      ensures this.url == url && this.opacity == opacity && tileSize == 256
    {
      this.url := url;
      this.opacity := opacity;
      tileSize := 256;
    }

    /** The SDK calls this for every tile it needs. */
    function GetTileUrl(x: int, y: int, zoom: int): (tile: string)
      ensures BraceFree(url) ==> tile == url
    {
      TileUrl(url, x, y, zoom)
    }
  }

  /** The tile URL: the first `{x}`, then `{y}`, then `{z}` are substituted. */
  function TileUrl(template: string, x: int, y: int, zoom: int): (tile: string)
    ensures BraceFree(template) ==> tile == template
  {
    BraceFreeHasNoPlaceholder(template, "{x}");
    BraceFreeHasNoPlaceholder(template, "{y}");
    BraceFreeHasNoPlaceholder(template, "{z}");
    ReplaceFirst(ReplaceFirst(ReplaceFirst(template, "{x}", IntToString(x)), "{y}", IntToString(y)),
                 "{z}", IntToString(zoom))
  }

  predicate BraceFree(s: string)
  {
    forall i | 0 <= i < |s| :: s[i] != '{'
  }

  /** A placeholder starts with `{`, so text without one holds none. */
  lemma BraceFreeHasNoPlaceholder(s: string, pat: string)
    requires |pat| >= 1 && pat[0] == '{'
    ensures BraceFree(s) ==> forall j | 0 <= j <= |s| :: !OccursAt(s, pat, j)
  {
    if BraceFree(s) {
      forall j | 0 <= j <= |s| ensures !OccursAt(s, pat, j) {
        if j + |pat| <= |s| {
          assert s[j..j + |pat|][0] == s[j] != pat[0];
        }
      }
    }
  }

  /** Every `{` in `pre` opens something other than `pat`. */
  predicate NoEarlierPlaceholder(pre: string, pat: string)
    requires |pat| >= 2
  {
    forall j | 0 <= j < |pre| && pre[j] == '{' :: j + 1 < |pre| && pre[j + 1] != pat[1]
  }

  lemma ReplaceFirstAfter(pre: string, pat: string, post: string, rep: string)
    requires |pat| >= 2 && pat[0] == '{'
    requires NoEarlierPlaceholder(pre, pat)
    ensures ReplaceFirst(pre + pat + post, pat, rep) == pre + rep + post
  {
    var s := pre + pat + post;
    assert OccursAt(s, pat, |pre|) by {
      assert s[|pre|..|pre| + |pat|] == pat;
    }
    forall j | 0 <= j < |pre|
      ensures !OccursAt(s, pat, j)
    {
      if j + |pat| <= |s| {
        var w := s[j..j + |pat|];
        if pre[j] == '{' {
          assert w[1] == s[j + 1] == pre[j + 1] != pat[1];
        } else {
          assert w[0] == pre[j] != pat[0];
        }
      }
    }
    assert s[..|pre|] == pre && s[|pre| + |pat|..] == post;
  }

  lemma NoEarlierPlaceholderOfBraceFree(p: string, pat: string)
    requires |pat| >= 2 && BraceFree(p)
    ensures NoEarlierPlaceholder(p, pat)
  {
  }

  lemma NoEarlierPlaceholderConcat(p: string, q: string, pat: string)
    requires |pat| >= 2 && NoEarlierPlaceholder(p, pat) && NoEarlierPlaceholder(q, pat)
    ensures NoEarlierPlaceholder(p + q, pat)
  {
    var s := p + q;
    forall j | 0 <= j < |s| && s[j] == '{'
      ensures j + 1 < |s| && s[j + 1] != pat[1]
    {
      if j < |p| {
        assert p[j] == '{';
      } else {
        assert q[j - |p|] == '{';
      }
    }
  }

  lemma IntToStringBraceFree(i: int)
    ensures BraceFree(IntToString(i))
  {
    var s := IntToString(i);
    if i >= 0 {
      assert forall k | 0 <= k < |s| :: IsDigit(s[k]);
    } else {
      var d := Decimal(-i);
      assert s == "-" + d;
      assert forall k | 1 <= k < |s| :: s[k] == d[k - 1] && IsDigit(d[k - 1]);
    }
  }

  lemma ReplaceXStep(a: string, b: string, c: string, d: string, X: string)
    requires BraceFree(a) && BraceFree(b)
    ensures ReplaceFirst(a + "{z}" + b + "{x}" + c + "{y}" + d, "{x}", X) == a + "{z}" + b + X + c + "{y}" + d
  {
    var pz: string := "{z}";
    assert NoEarlierPlaceholder(pz, "{x}");
    NoEarlierPlaceholderOfBraceFree(a, "{x}");
    NoEarlierPlaceholderOfBraceFree(b, "{x}");
    NoEarlierPlaceholderConcat(a, pz, "{x}");
    NoEarlierPlaceholderConcat(a + pz, b, "{x}");
    var pre, post := a + pz + b, c + "{y}" + d;
    assert a + "{z}" + b + "{x}" + c + "{y}" + d == pre + "{x}" + post;
    ReplaceFirstAfter(pre, "{x}", post, X);
    assert pre + X + post == a + "{z}" + b + X + c + "{y}" + d;
  }

  lemma ReplaceYStep(a: string, b: string, c: string, d: string, X: string, Y: string)
    requires BraceFree(a) && BraceFree(b) && BraceFree(c) && BraceFree(X)
    ensures ReplaceFirst(a + "{z}" + b + X + c + "{y}" + d, "{y}", Y) == a + "{z}" + b + X + c + Y + d
  {
    var pz: string := "{z}";
    assert NoEarlierPlaceholder(pz, "{y}");
    NoEarlierPlaceholderOfBraceFree(a, "{y}");
    NoEarlierPlaceholderOfBraceFree(b, "{y}");
    NoEarlierPlaceholderOfBraceFree(X, "{y}");
    NoEarlierPlaceholderOfBraceFree(c, "{y}");
    NoEarlierPlaceholderConcat(a, pz, "{y}");
    NoEarlierPlaceholderConcat(a + pz, b, "{y}");
    NoEarlierPlaceholderConcat(a + pz + b, X, "{y}");
    NoEarlierPlaceholderConcat(a + pz + b + X, c, "{y}");
    ReplaceFirstAfter(a + pz + b + X + c, "{y}", d, Y);
  }

  /** Regrouping a concatenation of six strings around its first part. */
  lemma ConcatRegroup(p: string, b: string, X: string, c: string, Y: string, d: string)
    ensures p + b + X + c + Y + d == p + (b + X + c + Y + d)
  {
    assert p + b + X == p + (b + X);
    assert p + b + X + c == p + (b + X + c);
    assert p + b + X + c + Y == p + (b + X + c + Y);
  }

  lemma ReplaceZStep(a: string, b: string, c: string, d: string, X: string, Y: string, Z: string)
    requires BraceFree(a)
    ensures ReplaceFirst(a + "{z}" + b + X + c + Y + d, "{z}", Z) == a + Z + b + X + c + Y + d
  {
    NoEarlierPlaceholderOfBraceFree(a, "{z}");
    var pz: string := "{z}";
    var post := b + X + c + Y + d;
    ConcatRegroup(a + pz, b, X, c, Y, d);
    ReplaceFirstAfter(a, pz, post, Z);
    ConcatRegroup(a + Z, b, X, c, Y, d);
  }

  /**
   * A template in the usual `{z}/{x}/{y}` order, with no other `{`, yields
   * the URL with the zoom, x and y numbers in place of their placeholders.
   */
  lemma TileUrlOfZxyTemplate(a: string, b: string, c: string, d: string, x: int, y: int, zoom: int)
    requires BraceFree(a) && BraceFree(b) && BraceFree(c) && BraceFree(d)
    ensures TileUrl(a + "{z}" + b + "{x}" + c + "{y}" + d, x, y, zoom)
            == a + IntToString(zoom) + b + IntToString(x) + c + IntToString(y) + d
  {
    var X, Y, Z := IntToString(x), IntToString(y), IntToString(zoom);
    IntToStringBraceFree(x);
    ReplaceXStep(a, b, c, d, X);
    ReplaceYStep(a, b, c, d, X, Y);
    ReplaceZStep(a, b, c, d, X, Y, Z);
  }
}
