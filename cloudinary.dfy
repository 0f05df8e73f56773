/** The two pieces of logic in backend/utils/cloudinary.js: the upload
    folder choice inside the storage parameters, and `extractPublicId`,
    which matches a delivery URL against
      /upload/ (v<digits>/)? (capture, lazily) (.<non-dots>)? end-of-string
    and strips one leading "bakehub/" from the capture. The regular
    expression is modelled by the order in which a backtracking matcher
    tries its alternatives: the leftmost "/upload/" first, the version
    segment before its absence, the shortest capture first. */
module Cloudinary {
  import opened Common

  // ---------------------------------------------------------------------
  // Folder selection

  /** The folder for an uploaded file, from its form field name and the request path. */
  function FolderFor(fieldname: string, path: string): string
  {
    if fieldname == "banner" || Contains(path, "banner") then "bakehub/banners"
    else if fieldname == "product" || Contains(path, "product") then "bakehub/products"
    else if fieldname == "image" || fieldname == "images" then "bakehub/uploads"
    else "bakehub"
  }

  /** The folder rules hold by precedence: banner before product before the generic
      upload fields, with the root folder for everything else. */
  lemma FolderPrecedence(fieldname: string, path: string)
    ensures var banner := fieldname == "banner" || Contains(path, "banner");
            var product := fieldname == "product" || Contains(path, "product");
            var generic := fieldname == "image" || fieldname == "images";
            && (FolderFor(fieldname, path) == "bakehub/banners" <==> banner)
            && (FolderFor(fieldname, path) == "bakehub/products" <==> !banner && product)
            && (FolderFor(fieldname, path) == "bakehub/uploads" <==> !banner && !product && generic)
            && (FolderFor(fieldname, path) == "bakehub" <==> !banner && !product && !generic)
  {
  }

  /** A product image sent through a banner route goes to the banner folder. */
  lemma BannerRouteWins()
    ensures FolderFor("product", "/upload/banner") == "bakehub/banners"
    ensures FolderFor("image", "") == "bakehub/uploads"
  {
    assert OccursAt("/upload/banner", "banner", 8);
    ContainsAt("/upload/banner", "banner", 8);
  }

  // ---------------------------------------------------------------------
  // extractPublicId

  /** The characters `.` does not match in a JavaScript regular expression without the s flag. */
  predicate IsLineTerminator(c: char)
  {
    c == '\n' || c == '\r' || c as int == 0x2028 || c as int == 0x2029
  }

  /** What may follow the capture up to the end: nothing, or a dot and at least one non-dot. */
  predicate ExtensionTail(r: string)
  {
    r == [] || (|r| >= 2 && r[0] == '.' && forall j :: 1 <= j < |r| ==> r[j] != '.')
  }

  /** The lazy capture from position `p`: the least length, trying `k` first, after which the
      rest is an extension tail; the capture stops at a line terminator. */
  function LazyCapture(s: string, p: nat, k: nat): (r: Option<nat>)
    requires 1 <= k && p + k <= |s|
    ensures r.Some? ==> k <= r.value && p + r.value <= |s| && ExtensionTail(s[p + r.value..])
    decreases |s| - p - k
  {
    if IsLineTerminator(s[p + k - 1]) then None
    else if ExtensionTail(s[p + k..]) then Some(k)
    else if p + k < |s| then LazyCapture(s, p, k + 1)
    else None
  }

  /** The capture when the lazy group starts at `p`. */
  function MatchAfter(s: string, p: nat): Option<string>
  {
    if p < |s| then
      match LazyCapture(s, p, 1)
      case None => None
      case Some(k) => Some(s[p..p + k])
    else None
  }

  /** The number of consecutive ASCII digits starting at `q`. */
  function DigitRun(s: string, q: nat): nat
    decreases |s| - q
  {
    if q < |s| && IsDigit(s[q]) then 1 + DigitRun(s, q + 1) else 0
  }

  /** The length of a "v<digits>/" segment at `p`, if there is one. */
  function VersionLength(s: string, p: nat): Option<nat>
  {
    if p < |s| && s[p] == 'v' then
      var d := DigitRun(s, p + 1);
      if d >= 1 && p + 1 + d < |s| && s[p + 1 + d] == '/' then Some(d + 2) else None
    else None
  }

  const Marker: string := "/upload/"

  /** The match attempt at an occurrence of "/upload/": with the version segment first,
      then without it. */
  function MatchAt(s: string, i: nat): Option<string>
  {
    var p := i + |Marker|;
    var v := VersionLength(s, p);
    var withVersion := if v.Some? then MatchAfter(s, p + v.value) else None;
    if withVersion.Some? then withVersion else MatchAfter(s, p)
  }

  /** The leftmost successful match, trying start positions from `i` on. */
  function MatchFrom(s: string, i: nat): Option<string>
    decreases |s| - i
  {
    if i + |Marker| > |s| then None
    else if OccursAt(s, Marker, i) && MatchAt(s, i).Some? then MatchAt(s, i)
    else MatchFrom(s, i + 1)
  }

  /** `replace(/^bakehub\//, '')`: one leading folder name is removed. */
  function StripBakehub(c: string): string
  {
    if "bakehub/" <= c then c[8..] else c
  }

  function ExtractPublicId(url: string): Option<string>
  {
    if url == "" then None
    else
      match MatchFrom(url, 0)
      case None => None
      case Some(c) => Some(StripBakehub(c))
  }

  /** Without any "/upload/" there is no match. */
  lemma {:induction false} NoMarkerNoMatch(s: string, i: nat)
    requires forall m: nat :: i <= m ==> !OccursAt(s, Marker, m)
    ensures MatchFrom(s, i) == None
    decreases |s| - i
  {
    if i + |Marker| <= |s| {
      NoMarkerNoMatch(s, i + 1);
    }
  }

  /** A URL that is empty or has no "/upload/" gives no id. */
  lemma ExtractWithoutMarker(url: string)
    requires !Contains(url, Marker)
    ensures ExtractPublicId(url) == None
    ensures ExtractPublicId("") == None
  {
    ContainsIff(url, Marker);
    NoMarkerNoMatch(url, 0);
  }

  /** Start positions before the first occurrence are skipped. */
  lemma {:induction false} MatchFromFirst(s: string, i: nat, j: nat)
    requires i <= j && OccursAt(s, Marker, j) && MatchAt(s, j).Some?
    requires forall m: nat :: i <= m < j ==> !OccursAt(s, Marker, m)
    ensures MatchFrom(s, i) == MatchAt(s, j)
    decreases j - i
  {
    if i < j {
      MatchFromFirst(s, i + 1, j);
    }
  }

  lemma {:induction false} DigitRunExact(s: string, q: nat, n: nat)
    requires q + n < |s| && !IsDigit(s[q + n])
    requires forall m :: q <= m < q + n ==> IsDigit(s[m])
    ensures DigitRun(s, q) == n
    decreases n
  {
    if n > 0 {
      DigitRunExact(s, q + 1, n - 1);
    }
  }

  /** The lazy capture stops at the first length whose rest is an extension tail. */
  lemma {:induction false} LazyCaptureFinds(s: string, p: nat, k: nat, n: nat)
    requires 1 <= k <= n && p + n <= |s|
    requires forall m :: p <= m < p + n ==> !IsLineTerminator(s[m])
    requires forall j :: p + k <= j < p + n ==> !ExtensionTail(s[j..])
    requires ExtensionTail(s[p + n..])
    ensures LazyCapture(s, p, k) == Some(n)
    decreases n - k
  {
    if k < n {
      LazyCaptureFinds(s, p, k + 1, n);
    }
  }

  /** The capture of "id.fmt" (or of "id" alone) starting at `p` is exactly the id. */
  lemma CaptureOfId(s: string, p: nat, id: string, ext: string)
    requires |id| >= 1 && p <= |s| && s[p..] == id + ext
    requires forall m :: 0 <= m < |id| ==> !IsLineTerminator(id[m])
    requires ExtensionTail(ext)
    requires ext == [] ==> forall m :: 0 <= m < |id| ==> id[m] != '.'
    ensures MatchAfter(s, p) == Some(id)
  {
    assert p + |id| <= |s|;
    forall m | p <= m < p + |id|
      ensures !IsLineTerminator(s[m])
    {
      assert s[m] == s[p..][m - p] == id[m - p];
    }
    forall j | p + 1 <= j < p + |id|
      ensures !ExtensionTail(s[j..])
    {
      var k' := j - p;
      var r := s[j..];
      assert r == id[k'..] + ext;
      if ext == [] {
        assert r[0] == id[k'] && r[0] != '.';
      } else {
        assert r[|id| - k'] == ext[0] == '.';
      }
    }
    assert s[p + |id|..] == ext;
    LazyCaptureFinds(s, p, 1, |id|);
    assert s[p..p + |id|] == id;
  }

  /** No "/upload/" starts inside the prefix of a URL: the prefix holds none and does not
      end in "/upload" (which with the marker's first slash would form one). */
  predicate NoEarlierMarker(prefix: string)
  {
    !Contains(prefix + "/upload", Marker)
  }

  /** Under that condition the first occurrence is the one right after the prefix. */
  lemma FirstMarker(prefix: string, tail: string)
    requires NoEarlierMarker(prefix)
    ensures forall m: nat :: m < |prefix| ==> !OccursAt(prefix + Marker + tail, Marker, m)
    ensures OccursAt(prefix + Marker + tail, Marker, |prefix|)
  {
    var u := prefix + Marker + tail;
    var w := prefix + "/upload";
    assert u == w + ("/" + tail);
    forall m: nat | m < |prefix|
      ensures !OccursAt(u, Marker, m)
    {
      if OccursAt(u, Marker, m) {
        assert w[m..m + |Marker|] == u[m..m + |Marker|];
        ContainsAt(w, Marker, m);
      }
    }
    assert u[|prefix|..|prefix| + |Marker|] == Marker;
  }

  /** A "v<digits>/" segment is recognised with its full length. */
  lemma VersionOfSegment(version: string, rest: string)
    requires |version| >= 1 && AllDigits(version)
    ensures VersionLength("v" + version + "/" + rest, 0) == Some(|version| + 2)
  {
    var t := "v" + version + "/" + rest;
    forall m | 1 <= m < 1 + |version|
      ensures IsDigit(t[m])
    {
      assert t[m] == version[m - 1];
    }
    assert t[1 + |version|] == '/';
    DigitRunExact(t, 1, |version|);
  }

  /** The URL the storage produces for an id, with or without a version segment and a
      format extension. */
  function DeliveryUrl(prefix: string, version: string, id: string, format: string): string
  {
    prefix + Marker + ((if version == "" then "" else "v" + version + "/") + (id + Extension(format)))
  }

  function Extension(format: string): string
  {
    if format == "" then "" else "." + format
  }

  predicate WellFormedPart(id: string, version: string, format: string)
  {
    && |id| >= 1
    && (forall m :: 0 <= m < |id| ==> !IsLineTerminator(id[m]))
    && AllDigits(version)
    && (forall m :: 0 <= m < |format| ==> format[m] != '.')
    && (format == "" ==> forall m :: 0 <= m < |id| ==> id[m] != '.')
    && (version == "" ==> VersionLength(id, 0).None?)
  }

  /** Without a version segment the match after the marker captures the id. */
  lemma MatchUnversioned(url: string, p: nat, id: string, format: string)
    requires WellFormedPart(id, "", format) && p >= |Marker|
    requires p <= |url| && url[p..] == id + Extension(format)
    ensures MatchAt(url, p - |Marker|) == Some(id)
  {
    var ext := Extension(format);
    assert ExtensionTail(ext);
    VersionShift(url, p);
    VersionOfIdWithExtension(id, ext);
    CaptureOfId(url, p, id, ext);
  }

  /** With a version segment the match after the marker skips it and captures the id. */
  lemma MatchVersioned(url: string, p: nat, version: string, id: string, format: string)
    requires WellFormedPart(id, version, format) && version != "" && p >= |Marker|
    requires p <= |url| && url[p..] == "v" + version + "/" + (id + Extension(format))
    ensures MatchAt(url, p - |Marker|) == Some(id)
  {
    var ext := Extension(format);
    assert ExtensionTail(ext);
    VersionShift(url, p);
    VersionOfSegment(version, id + ext);
    var q := p + |version| + 2;
    assert url[q..] == url[p..][|version| + 2..] == id + ext;
    CaptureOfId(url, q, id, ext);
    var i := p - |Marker|;
    assert i + |Marker| == p;
    assert VersionLength(url, p) == Some(|version| + 2);
    assert MatchAfter(url, q) == Some(id);
  }

  /** Extraction inverts the URL construction: the version and the extension are dropped
      and one leading "bakehub/" is stripped from the id. */
  lemma ExtractFromDeliveryUrl(prefix: string, version: string, id: string, format: string)
    requires WellFormedPart(id, version, format) && NoEarlierMarker(prefix)
    ensures ExtractPublicId(DeliveryUrl(prefix, version, id, format)) == Some(StripBakehub(id))
  {
    var tail := (if version == "" then "" else "v" + version + "/") + (id + Extension(format));
    var url := prefix + Marker + tail;
    var p := |prefix| + |Marker|;
    assert url == DeliveryUrl(prefix, version, id, format);
    assert url[p..] == tail;
    if version == "" {
      MatchUnversioned(url, p, id, format);
    } else {
      MatchVersioned(url, p, version, id, format);
    }
    FirstMarker(prefix, tail);
    MatchFromFirst(url, 0, |prefix|);
  }

  /** A digit run read inside a suffix is the same run. */
  lemma {:induction false} DigitRunSuffix(s: string, p: nat, q: nat)
    requires p + q <= |s|
    ensures DigitRun(s, p + q) == DigitRun(s[p..], q)
    decreases |s| - p - q
  {
    if p + q < |s| {
      assert s[p..][q] == s[p + q];
      DigitRunSuffix(s, p, q + 1);
    }
  }

  /** Appending text that does not start with a digit does not lengthen a digit run. */
  lemma {:induction false} DigitRunPrefix(a: string, b: string, q: nat)
    requires q <= |a| && (b == [] || !IsDigit(b[0]))
    ensures DigitRun(a + b, q) == DigitRun(a, q)
    decreases |a| - q
  {
    if q < |a| {
      assert (a + b)[q] == a[q];
      DigitRunPrefix(a, b, q + 1);
    } else if b != [] {
      assert (a + b)[q] == b[0];
    }
  }

  /** Whether a version segment starts at `p` depends only on the text from `p` on. */
  lemma VersionShift(s: string, p: nat)
    requires p <= |s|
    ensures VersionLength(s, p) == VersionLength(s[p..], 0)
  {
    if p < |s| {
      DigitRunSuffix(s, p, 1);
      var d := DigitRun(s, p + 1);
      if p + 1 + d < |s| {
        assert s[p..][1 + d] == s[p + 1 + d];
      }
    }
  }

  /** An extension after an id cannot complete a version segment the id does not have. */
  lemma VersionOfIdWithExtension(id: string, ext: string)
    requires |id| >= 1 && ExtensionTail(ext) && VersionLength(id, 0).None?
    ensures VersionLength(id + ext, 0).None?
  {
    if id[0] == 'v' {
      DigitRunPrefix(id, ext, 1);
      var d := DigitRun(id, 1);
      if 1 + d < |id| {
        assert (id + ext)[1 + d] == id[1 + d];
      } else if 1 + d < |id + ext| {
        assert DigitRun(id, |id|) == 0;
        assert 1 + d == |id| by {
          DigitRunBound(id, 1);
        }
        assert (id + ext)[1 + d] == ext[0] == '.';
      }
    }
  }

  lemma {:induction false} DigitRunBound(s: string, q: nat)
    requires q <= |s|
    ensures q + DigitRun(s, q) <= |s|
    decreases |s| - q
  {
    if q < |s| {
      DigitRunBound(s, q + 1);
    }
  }

  /** Only one leading "bakehub/" is removed. */
  lemma StripOnce(rest: string)
    ensures StripBakehub("bakehub/" + rest) == rest
    ensures rest == [] || rest[0] != 'b' ==> StripBakehub(rest) == rest
    ensures StripBakehub("bakehub/bakehub/" + rest) == "bakehub/" + rest
  {
    assert "bakehub/" <= "bakehub/" + rest;
    assert "bakehub/bakehub/" + rest == "bakehub/" + ("bakehub/" + rest);
  }

  /** A concrete URL as the storage returns it: "cdn/upload/v1712/bakehub/products/cake.jpg". */
  lemma ExtractExample()
    ensures ExtractPublicId(DeliveryUrl("cdn", "1712", "bakehub/" + "products/cake", "jpg")) == Some("products/cake")
  {
    var id := "bakehub/" + "products/cake";
    assert NoEarlierMarker("cdn") by {
      var w := "cdn/upload";
      assert "cdn" + "/upload" == w;
      forall i: nat
        ensures !OccursAt(w, Marker, i)
      {
        if i + |Marker| <= |w| {
          assert i <= 2 && w[0] == 'c' && w[1] == 'd' && w[2] == 'n';
          assert w[i..i + |Marker|][0] == w[i];
        }
      }
      ContainsIff(w, Marker);
    }
    assert forall m :: 0 <= m < |id| ==> !IsLineTerminator(id[m]);
    ExtractFromDeliveryUrl("cdn", "1712", id, "jpg");
    StripOnce("products/cake");
  }
}
