/**
 * `parseGitHubUrl` (background.js:17-23): find the leftmost match of the
 * unanchored pattern
 *
 *     github\.com\/([a-zA-Z0-9_-]+)\/([a-zA-Z0-9_.-]+)(\/.*)?$
 *
 * and return the owner and the repository name with one trailing `.git`
 * removed, or null when nothing matches.
 *
 * Neither character class contains `/`, so at a fixed start position the
 * match is unique: the owner is the longest run of owner characters, which
 * must be followed by `/`, and the repository segment is the longest run of
 * repository characters, which must be followed by the end of the input or
 * by `/` and code points that `.` accepts (anything but a line terminator).
 */
module GitHubUrl {
  import opened Wrappers
  import opened JsText

  const Host: string := "github.com/"

  predicate IsOwnerChar(c: char) {
    'a' <= c <= 'z' || 'A' <= c <= 'Z' || '0' <= c <= '9' || c == '_' || c == '-'
  }

  predicate IsRepoChar(c: char) {
    IsOwnerChar(c) || c == '.'
  }

  predicate IsOwner(o: string) {
    |o| > 0 && forall i :: 0 <= i < |o| ==> IsOwnerChar(o[i])
  }

  predicate AllRepoChars(g: string) {
    forall i :: 0 <= i < |g| ==> IsRepoChar(g[i])
  }

  predicate IsSegment(g: string) {
    |g| > 0 && AllRepoChars(g)
  }

  /** What `(\/.*)?$` accepts: nothing, or `/` followed by non-line-terminators. */
  predicate IsTail(t: string) {
    t == [] || (t[0] == '/' && forall i :: 1 <= i < |t| ==> !IsLineTerminator(t[i]))
  }

  /** `github.com/` occurs at index `k` of `s`. */
  predicate HostAt(s: string, k: nat) {
    k + |Host| <= |s| && s[k..k + |Host|] == Host
  }

  /**
   * The pattern matches at index `k` of `s`, with capture groups `owner` and
   * `segment`.
   */
  predicate Matches(s: string, k: nat, owner: string, segment: string) {
    var h := k + |Host|;
    var o := h + |owner|;
    var e := o + 1 + |segment|;
    e <= |s| && HostAt(s, k) && s[h..o] == owner && s[o] == '/' && s[o + 1..e] == segment
    && IsOwner(owner) && IsSegment(segment) && IsTail(s[e..])
  }

  datatype Groups = Groups(owner: string, segment: string)

  datatype Match = Match(start: nat, groups: Groups)

  datatype RepoInfo = RepoInfo(owner: string, repo: string)

  /** The pattern anchored at index `k` of `s`. */
  function MatchAt(s: string, k: nat): (m: Option<Groups>)
    ensures m.Some? ==> Matches(s, k, m.value.owner, m.value.segment)
  {
    var h := k + |Host|;
    if !HostAt(s, k) then None
    else
      var o := RunEnd(s, h, IsOwnerChar);
      if o == h || o == |s| || s[o] != '/' then None
      else
        var e := RunEnd(s, o + 1, IsRepoChar);
        if e == o + 1 || !IsTail(s[e..]) then None
        else Some(Groups(s[h..o], s[o + 1..e]))
  }

  /** Every match at index `k` is the one MatchAt finds. */
  lemma MatchAtComplete(s: string, k: nat, owner: string, segment: string)
    requires Matches(s, k, owner, segment)
    ensures MatchAt(s, k) == Some(Groups(owner, segment))
  {
    var h := k + |Host|;
    var o := h + |owner|;
    var e := o + 1 + |segment|;
    forall j | h <= j < o ensures IsOwnerChar(s[j]) { assert s[j] == s[h..o][j - h]; }
    RunEndIs(s, h, o, IsOwnerChar);
    forall j | o + 1 <= j < e ensures IsRepoChar(s[j]) { assert s[j] == s[o + 1..e][j - o - 1]; }
    if e < |s| { assert s[e] == s[e..][0]; }
    RunEndIs(s, o + 1, e, IsRepoChar);
  }

  /** The anchored pattern, tried at each index of `s`. */
  function MatcherOf(s: string): nat -> Option<Groups> {
    (k: nat) => MatchAt(s, k)
  }

  /**
   * The leftmost index in `i..n` where the anchored matcher `at` succeeds,
   * as the unanchored `String.prototype.match` tries them.
   */
  function Search(n: nat, i: nat, at: nat -> Option<Groups>): (m: Option<Match>)
    requires i <= n
    decreases n - i
    ensures m.Some? ==> i <= m.value.start <= n && at(m.value.start) == Some(m.value.groups)
    ensures m.Some? ==> forall k :: i <= k < m.value.start ==> at(k).None?
    ensures m.None? ==> forall k :: i <= k <= n ==> at(k).None?
  {
    var here := at(i);
    if here.Some? then Some(Match(i, here.value))
    else if i == n then None
    else Search(n, i + 1, at)
  }

  /** `.replace(/\.git$/, '')`: drop one trailing `.git`. */
  function StripGit(g: string): (r: string)
    ensures EndsWith(g, ".git") ==> r + ".git" == g
    ensures !EndsWith(g, ".git") ==> r == g
    ensures AllRepoChars(g) ==> AllRepoChars(r)
  {
    if EndsWith(g, ".git") then
      var r := g[..|g| - 4];
      assert r + ".git" == g;
      r
    else g
  }

  /**
   * `parseGitHubUrl`. Null exactly when the pattern matches nowhere;
   * otherwise the groups of the leftmost match, with `.git` stripped from the
   * repository segment. (The `match[1] && match[2]` test at background.js:19
   * always passes on a match: both groups are non-empty.)
   */
  function ParseGitHubUrl(url: string): (r: Option<RepoInfo>)
    ensures r.None? <==> forall k, o, g :: 0 <= k <= |url| ==> !Matches(url, k, o, g)
    ensures r.Some? ==> IsOwner(r.value.owner) && AllRepoChars(r.value.repo)
    ensures r.Some? ==>
      exists k, g :: 0 <= k <= |url| && Matches(url, k, r.value.owner, g) && r.value.repo == StripGit(g)
        && forall k', o', g' :: 0 <= k' < k ==> !Matches(url, k', o', g')
  {
    match Search(|url|, 0, MatcherOf(url))
    case None =>
      assert forall k, o, g :: 0 <= k <= |url| ==> !Matches(url, k, o, g) by {
        forall k, o, g | 0 <= k <= |url| && Matches(url, k, o, g) ensures false {
          assert MatcherOf(url)(k).None?;
          MatchAtComplete(url, k, o, g);
        }
      }
      None
    case Some(m) =>
      var gr := m.groups;
      assert MatcherOf(url)(m.start) == MatchAt(url, m.start);
      assert Matches(url, m.start, gr.owner, gr.segment);
      assert forall k', o', g' :: 0 <= k' < m.start ==> !Matches(url, k', o', g') by {
        forall k', o', g' | 0 <= k' < m.start && Matches(url, k', o', g') ensures false {
          assert MatcherOf(url)(k').None?;
          MatchAtComplete(url, k', o', g');
        }
      }
      var repo := StripGit(gr.segment);
      Some(RepoInfo(gr.owner, repo))
  }

  lemma {:induction false} SearchFinds(n: nat, i: nat, j: nat, g: Groups, at: nat -> Option<Groups>)
    requires i <= j <= n
    requires forall k :: i <= k < j ==> at(k).None?
    requires at(j) == Some(g)
    ensures Search(n, i, at) == Some(Match(j, g))
    decreases j - i
  {
    if i < j { SearchFinds(n, i + 1, j, g, at); }
  }

  /**
   * A URL built from an owner, a repository segment and an optional path
   * parses back to that owner and that segment without its `.git`.
   */
  lemma ParseRoundTrip(owner: string, segment: string, tail: string)
    requires IsOwner(owner) && IsSegment(segment) && IsTail(tail)
    ensures ParseGitHubUrl("https://github.com/" + owner + "/" + segment + tail)
            == Some(RepoInfo(owner, StripGit(segment)))
  {
    var url := "https://github.com/" + owner + "/" + segment + tail;
    assert url[..8] == "https://";
    HttpsMatch(url, owner, segment, tail);
    MatchAtComplete(url, 8, owner, segment);
    PrefixNoMatch(url);
    SearchFinds(|url|, 0, 8, Groups(owner, segment), MatcherOf(url));
    ParseOfSearch(url, Match(8, Groups(owner, segment)));
  }

  lemma HttpsMatch(url: string, owner: string, segment: string, tail: string)
    requires IsOwner(owner) && IsSegment(segment) && IsTail(tail)
    requires url == "https://github.com/" + owner + "/" + segment + tail
    ensures Matches(url, 8, owner, segment)
  {
    var o := 8 + |Host| + |owner|;
    var e := o + 1 + |segment|;
    assert url[8..8 + |Host|] == Host;
    assert url[8 + |Host|..o] == owner;
    assert url[o] == '/';
    assert url[o + 1..e] == segment;
    assert url[e..] == tail;
  }

  /** No match can start inside `https://`: none of its code points is the `g` of the host. */
  lemma PrefixNoMatch(url: string)
    requires |url| >= 8 && url[..8] == "https://"
    ensures forall k :: 0 <= k < 8 ==> MatcherOf(url)(k).None?
  {
    forall k | 0 <= k < 8 ensures MatchAt(url, k).None? {
      assert url[k] == url[..8][k];
      if k + |Host| <= |url| { assert url[k..k + |Host|][0] == url[k]; }
    }
  }

  lemma ParseOfSearch(url: string, m: Match)
    requires Search(|url|, 0, MatcherOf(url)) == Some(m)
    ensures ParseGitHubUrl(url) == Some(RepoInfo(m.groups.owner, StripGit(m.groups.segment)))
  {
  }

  /** In particular a plain repository URL without `.git` gives back exactly its two segments. */
  lemma ParsePlainUrl(owner: string, repo: string)
    requires IsOwner(owner) && IsSegment(repo) && !EndsWith(repo, ".git")
    ensures ParseGitHubUrl("https://github.com/" + owner + "/" + repo) == Some(RepoInfo(owner, repo))
  {
    ParseRoundTrip(owner, repo, "");
    assert "https://github.com/" + owner + "/" + repo + "" == "https://github.com/" + owner + "/" + repo;
  }
}
