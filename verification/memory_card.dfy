/**
 * `getPublicUrl` of the memory card: a stored image URL, signed or public,
 * on whatever host, is rewritten to the public URL of the same object on
 * the project's fixed storage host. The URL parser is foreign: its result,
 * the pathname or a parse error, is an input.
 */
module MemoryCard {
  import opened Options

  /** The fixed host and public-object prefix the rewrite produces. */
  const PublicBase: string := "https://utzwsgxpblcxqhiaphuv.supabase.co/storage/v1/object/public/"

  const SignPrefix: string := "/storage/v1/object/sign/"
  const PublicPrefix: string := "/storage/v1/object/public/"
  const Folder: string := "memories/images/"

  /** The characters a regular-expression `.` does not match. */
  predicate IsLineTerminator(c: char) {
    c == '\n' || c == '\r' || c == '\U{2028}' || c == '\U{2029}'
  }

  /**
   * Where the lazy `.+?` followed by `(?:\?|$)` stops, having consumed
   * `p[from..e]` so far: at the first '?' or at the end, unless a line
   * terminator comes first.
   */
  function LazyEnd(p: string, e: nat): (r: Option<nat>)
    requires e <= |p|
    ensures r.Some? ==> e <= r.value <= |p|
    ensures r.Some? ==> r.value == |p| || p[r.value] == '?'
    ensures r.Some? ==> forall k :: e <= k < r.value ==> p[k] != '?' && !IsLineTerminator(p[k])
    decreases |p| - e
  {
    if e == |p| || p[e] == '?' then Some(e)
    else if IsLineTerminator(p[e]) then None
    else LazyEnd(p, e + 1)
  }

  /**
   * The group `(memories\/images\/.+?)` starting at `k`, followed by
   * `(?:\?|$)`: its text, when it matches there. The `.+?` takes its first
   * character whatever it is, a '?' included, unless it is a line break.
   */
  function GroupAt(p: string, k: nat): (r: Option<string>)
    requires k <= |p|
    ensures r.Some? ==> Folder <= r.value && |r.value| > |Folder|
    ensures r.Some? ==> k + |r.value| <= |p| && p[k..k + |r.value|] == r.value
    ensures r.Some? ==> k + |r.value| == |p| || p[k + |r.value|] == '?'
  {
    var j := k + |Folder|;
    if Folder <= p[k..] && j < |p| && !IsLineTerminator(p[j]) then
      match LazyEnd(p, j + 1)
      case None => None
      case Some(e) => Some(p[k..e])
    else None
  }

  /** The whole pattern tried at position `i`: `sign` first, then `public`. */
  function MatchAt(p: string, i: nat): (r: Option<string>)
    requires i <= |p|
    ensures r.Some? ==> SignPrefix <= p[i..] || PublicPrefix <= p[i..]
    ensures r.Some? ==>
      var k := i + if SignPrefix <= p[i..] then |SignPrefix| else |PublicPrefix|;
      Folder <= r.value && k + |r.value| <= |p| && p[k..k + |r.value|] == r.value
  {
    if SignPrefix <= p[i..] then GroupAt(p, i + |SignPrefix|)
    else if PublicPrefix <= p[i..] then GroupAt(p, i + |PublicPrefix|)
    else None
  }

  /** `pathname.match(...)`: the leftmost position from `i` on where the pattern matches. */
  function Search(p: string, i: nat): (r: Option<nat>)
    requires i <= |p|
    ensures r.Some? ==> i <= r.value <= |p| && MatchAt(p, r.value).Some?
    ensures r.Some? ==> forall k :: i <= k < r.value ==> MatchAt(p, k).None?
    ensures r.None? ==> forall k :: i <= k <= |p| ==> MatchAt(p, k).None?
    decreases |p| - i
  {
    if MatchAt(p, i).Some? then Some(i)
    else if i == |p| then None
    else Search(p, i + 1)
  }

  /**
   * The rewrite. `url` is the `image_url` prop (`None` for undefined);
   * `pathname` is what `new URL(url).pathname` gives, `None` when it throws.
   */
  function GetPublicUrl(url: Option<string>, pathname: Option<string>): (r: Option<string>)
    ensures url.None? || url == Some("") ==> r.None?
    ensures r.Some? ==> r == url || PublicBase + Folder <= r.value
  {
    if url.None? || url.value == "" then None
    else if pathname.None? then url
    else match Search(pathname.value, 0)
      case None => url
      case Some(at) => Some(PublicBase + MatchAt(pathname.value, at).value)
  }

  /**
   * An image name the group captures whole: not empty, no line break, and
   * no '?' after its first character.
   */
  predicate CleanName(name: string) {
    && name != []
    && (forall k :: 0 <= k < |name| ==> !IsLineTerminator(name[k]))
    && (forall k :: 1 <= k < |name| ==> name[k] != '?')
  }

  /** With no '?' and no line break from `e` on, the lazy group runs to the end. */
  lemma {:induction false} LazyEndRunsOut(p: string, e: nat)
    requires e <= |p|
    requires forall k :: e <= k < |p| ==> p[k] != '?' && !IsLineTerminator(p[k])
    ensures LazyEnd(p, e) == Some(|p|)
    decreases |p| - e
  {
    if e < |p| {
      LazyEndRunsOut(p, e + 1);
    }
  }

  /** The folder and a clean name at `k`, running to the end, are captured whole. */
  lemma GroupOfFolder(p: string, k: nat, name: string)
    requires k <= |p| && p[k..] == Folder + name && CleanName(name)
    ensures GroupAt(p, k) == Some(Folder + name)
  {
    var j := k + |Folder|;
    assert p[j..] == name;
    assert p[j] == name[0];
    forall m | j + 1 <= m < |p|
      ensures p[m] != '?' && !IsLineTerminator(p[m])
    {
      assert p[m] == name[m - j];
    }
    LazyEndRunsOut(p, j + 1);
    assert Folder <= p[k..];
    assert p[k..|p|] == Folder + name;
  }

  /** A stored-image pathname matches at its very start. */
  lemma MatchAtStart(prefix: string, name: string)
    requires prefix == SignPrefix || prefix == PublicPrefix
    requires CleanName(name)
    ensures MatchAt(prefix + Folder + name, 0) == Some(Folder + name)
  {
    var p := prefix + Folder + name;
    assert p[0..] == p;
    assert p[|prefix|..] == Folder + name;
    GroupOfFolder(p, |prefix|, name);
    if prefix == PublicPrefix {
      assert !(SignPrefix <= p) by {
        assert p[19] == 'p' && SignPrefix[19] == 's';
      }
    } else {
      assert SignPrefix <= p;
    }
  }

  /** A pathname holding a stored image path is rewritten onto the fixed host, whatever host it came from. */
  lemma RewritesStoredImage(url: string, prefix: string, name: string)
    requires url != ""
    requires prefix == SignPrefix || prefix == PublicPrefix
    requires CleanName(name)
    ensures GetPublicUrl(Some(url), Some(prefix + Folder + name)) == Some(PublicBase + Folder + name)
  {
    StoredImageFound(prefix, name);
    Regroup(PublicBase, Folder, name);
  }

  /** The search stops at the start of a stored-image pathname. */
  lemma StoredImageFound(prefix: string, name: string)
    requires prefix == SignPrefix || prefix == PublicPrefix
    requires CleanName(name)
    ensures Search(prefix + Folder + name, 0) == Some(0)
    ensures MatchAt(prefix + Folder + name, 0) == Some(Folder + name)
  {
    MatchAtStart(prefix, name);
  }

  /**
   * The rewrite is idempotent: the URL it produces, parsed again, has the
   * pathname `PublicPrefix + group` and is rewritten to itself.
   */
  lemma RewriteIdempotent(url: string, pathname: string)
    requires url != ""
    requires GetPublicUrl(Some(url), Some(pathname)) != Some(url)
    ensures var r := GetPublicUrl(Some(url), Some(pathname)).value;
      GetPublicUrl(Some(r), Some(PublicPrefix + r[|PublicBase|..])) == Some(r)
  {
    var at := RewriteFound(url, pathname);
    var name := NameOfMatch(pathname, at);
    Regroup(PublicBase, Folder, name);
    PublicRewritesToItself(PublicBase + MatchAt(pathname, at).value, name);
  }

  /** Concatenation regrouped, for strings the solver should not unfold. */
  lemma Regroup(a: string, b: string, c: string)
    ensures a + (b + c) == a + b + c
  {
  }

  /** A matched group is the folder followed by a clean name. */
  lemma NameOfMatch(p: string, i: nat) returns (name: string)
    requires i <= |p| && MatchAt(p, i).Some?
    ensures MatchAt(p, i).value == Folder + name && CleanName(name)
  {
    GroupIsClean(p, i);
    GroupSplits(MatchAt(p, i).value);
    name := MatchAt(p, i).value[|Folder|..];
  }

  /** A URL the rewrite changed comes from the leftmost match's group. */
  lemma RewriteFound(url: string, pathname: string) returns (at: nat)
    requires url != ""
    requires GetPublicUrl(Some(url), Some(pathname)) != Some(url)
    ensures at <= |pathname| && MatchAt(pathname, at).Some?
    ensures GetPublicUrl(Some(url), Some(pathname)) == Some(PublicBase + MatchAt(pathname, at).value)
  {
    at := Search(pathname, 0).value;
  }

  /** A group of the matched shape is the folder followed by a clean name. */
  lemma GroupSplits(g: string)
    requires Folder <= g && |g| > |Folder|
    requires forall k :: |Folder| <= k < |g| ==> !IsLineTerminator(g[k])
    requires forall k :: |Folder| < k < |g| ==> g[k] != '?'
    ensures g == Folder + g[|Folder|..] && CleanName(g[|Folder|..])
  {
    var name := g[|Folder|..];
    forall k | 0 <= k < |name|
      ensures !IsLineTerminator(name[k]) && (k >= 1 ==> name[k] != '?')
    {
      assert name[k] == g[|Folder| + k];
    }
  }

  /** The public URL `r` of a clean name, parsed again, is rewritten to itself. */
  lemma PublicRewritesToItself(r: string, name: string)
    requires CleanName(name) && r == PublicBase + Folder + name
    ensures GetPublicUrl(Some(r), Some(PublicPrefix + r[|PublicBase|..])) == Some(r)
  {
    Regroup(PublicBase, Folder, name);
    assert r[|PublicBase|..] == Folder + name;
    Regroup(PublicPrefix, Folder, name);
    RewritesStoredImage(r, PublicPrefix, name);
  }

  /**
   * A matched group is the folder, then at least one character: no line
   * break anywhere, and no '?' after the first character of the name.
   */
  lemma GroupIsClean(p: string, i: nat)
    requires i <= |p| && MatchAt(p, i).Some?
    ensures var g := MatchAt(p, i).value;
      && Folder <= g && |g| > |Folder|
      && (forall k :: |Folder| <= k < |g| ==> !IsLineTerminator(g[k]))
      && (forall k :: |Folder| < k < |g| ==> g[k] != '?')
  {
    if SignPrefix <= p[i..] {
      GroupAtClean(p, i + |SignPrefix|);
    } else {
      GroupAtClean(p, i + |PublicPrefix|);
    }
  }

  lemma GroupAtClean(p: string, start: nat)
    requires start <= |p| && GroupAt(p, start).Some?
    ensures var g := GroupAt(p, start).value;
      && (forall k :: |Folder| <= k < |g| ==> !IsLineTerminator(g[k]))
      && (forall k :: |Folder| < k < |g| ==> g[k] != '?')
  {
    var j := start + |Folder|;
    var e := LazyEnd(p, j + 1).value;
    var g := GroupAt(p, start).value;
    assert g == p[start..e];
    forall k | |Folder| <= k < |g|
      ensures !IsLineTerminator(g[k]) && (k > |Folder| ==> g[k] != '?')
    {
      assert g[k] == p[start + k];
    }
  }

  /** A pathname without the stored-image pattern, or an unparseable URL, leaves the URL as it was. */
  lemma NoMatchUnchanged(url: string, pathname: Option<string>)
    requires url != ""
    requires pathname.None? || forall k :: 0 <= k <= |pathname.value| ==> MatchAt(pathname.value, k).None?
    ensures GetPublicUrl(Some(url), pathname) == Some(url)
  {
  }

  /**
   * The lazy group takes a '?' as the first character of the name: the
   * pathname `.../public/memories/images/?a` is rewritten with the name `?a`.
   */
  lemma LeadingQuestionMarkKept(url: string)
    requires url != ""
    ensures GetPublicUrl(Some(url), Some(PublicPrefix + Folder + "?a")) == Some(PublicBase + Folder + "?a")
  {
    RewritesStoredImage(url, PublicPrefix, "?a");
  }
}
