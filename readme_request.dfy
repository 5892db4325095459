/**
 * The request assembly of `generateReadmeForRepo` (background.js:235-296):
 * choose which files of the repository tree to read, join what was read,
 * fall back to a canned prompt when nothing useful came back, and put a
 * title line and a closing instruction around it.
 *
 * The network is an input. The tree listing is a `TreeReply`, and the raw
 * download of each chosen file is `fetch(path)`: `Some(text)` for an ok
 * response, `None` for a non-ok response or a rejected request, which the
 * source turns into the empty string (background.js:257-263).
 */
module ReadmeRequest {
  import opened Wrappers
  import opened JsText
  import GitHubUrl

  /** One entry of the git tree listing: its `path` and its `type` field. */
  datatype TreeEntry = TreeEntry(path: string, kind: string)

  /** The tree request: a non-ok status, or the parsed body, whose `tree` field may be absent. */
  datatype TreeReply = TreeNotOk | TreeBody(tree: Option<seq<TreeEntry>>)

  /** The alternatives of `/\.(js|ts|...|yaml)$/i` (background.js:248). */
  const Extensions: seq<string> :=
    ["js", "ts", "jsx", "tsx", "json", "html", "css", "md", "py", "go", "rs", "java", "cpp", "c", "yml", "yaml"]

  const ContentLimit: nat := 20

  const InvalidUrlMessage: string := "Invalid GitHub repository URL."
  const TreeFailedMessage: string := "Failed to fetch file tree from GitHub."
  const BlockSeparator: string := "\n\n"
  const PromptSuffix: string := "\n\nBased on this, generate a clean and professional README.md."

  /** The prompt used when no file content survives trimming (background.js:269-284). */
  const FallbackPrompt: string :=
    "\n" + "This repository has minimal or no content. Generate a README.md with the following sections:\n\n"
    + "- Project Title (from repo name with icon)\n- Description\n- Features\n- Tech Stack (assume full-stack)\n"
    + "- Installation Steps\n- Usage Instructions\n- Folder Structure (guess if needed)\n"
    + "- License (MIT by default)\n- Contributing Guidelines\n- Contact Info\n\n"
    + "Use markdown formatting and fill in professional placeholders where needed.\n"

  function LowerAscii(c: char): char {
    if 'A' <= c <= 'Z' then (c as int + 32) as char else c
  }

  function UpperAscii(c: char): char {
    if 'a' <= c <= 'z' then (c as int - 32) as char else c
  }

  /**
   * Case-insensitive suffix test of the `i`-flagged pattern. Without the `u`
   * flag a non-ASCII code point never folds onto an ASCII one, so for these
   * ASCII extensions folding ASCII letters is exact.
   */
  predicate EndsWithIgnoringCase(s: string, suffix: string) {
    |suffix| <= |s| && forall i :: 0 <= i < |suffix| ==> LowerAscii(s[|s| - |suffix| + i]) == suffix[i]
  }

  predicate HasRelevantExtension(path: string) {
    exists k :: 0 <= k < |Extensions| && EndsWithIgnoringCase(path, "." + Extensions[k])
  }

  /** The filter condition of background.js:246-249. */
  predicate IsRelevant(e: TreeEntry) {
    e.kind == "blob" && HasRelevantExtension(e.path)
  }

  /** `tree.filter(...)`: the relevant entries, in tree order. */
  function RelevantFiles(tree: seq<TreeEntry>): (r: seq<TreeEntry>)
    ensures |r| <= |tree|
    ensures forall i :: 0 <= i < |r| ==> IsRelevant(r[i]) && r[i] in tree
    ensures forall e :: e in tree && IsRelevant(e) ==> e in r
  {
    if tree == [] then []
    else if IsRelevant(tree[0]) then [tree[0]] + RelevantFiles(tree[1..])
    else RelevantFiles(tree[1..])
  }

  /** Filtering a concatenation filters each part and keeps them in order. */
  lemma {:induction false} RelevantFilesAppend(a: seq<TreeEntry>, b: seq<TreeEntry>)
    ensures RelevantFiles(a + b) == RelevantFiles(a) + RelevantFiles(b)
  {
    if a == [] {
      assert a + b == b;
    } else {
      assert (a + b)[0] == a[0] && (a + b)[1..] == a[1..] + b;
      RelevantFilesAppend(a[1..], b);
    }
  }

  /**
   * `(treeData.tree || []).filter(...).slice(0, 20)` (background.js:245-252):
   * the first twenty relevant entries, or all of them when there are fewer.
   */
  function SelectFiles(tree: Option<seq<TreeEntry>>): (r: seq<TreeEntry>)
    ensures var all := RelevantFiles(if tree.Some? then tree.value else []);
      |r| == (if |all| < ContentLimit then |all| else ContentLimit) && r == all[..|r|]
    ensures forall i :: 0 <= i < |r| ==> IsRelevant(r[i])
  {
    var all := RelevantFiles(if tree.Some? then tree.value else []);
    if |all| <= ContentLimit then all else all[..ContentLimit]
  }

  /**
   * The string one download contributes (background.js:259-262): empty when
   * the file was not downloaded, otherwise a `// File:` header line followed
   * by the file's text.
   */
  function FileBlock(path: string, fetched: Option<string>): (b: string)
    ensures b == "" <==> fetched.None?
    ensures fetched.Some? ==> |b| > 9 && b[..9] == "// File: " && EndsWith(b, fetched.value)
  {
    if fetched.Some? then "// File: " + path + "\n" + fetched.value else ""
  }

  function FileBlocks(files: seq<TreeEntry>, fetch: string -> Option<string>): (r: seq<string>)
    ensures |r| == |files|
  {
    seq(|files|, i requires 0 <= i < |files| => FileBlock(files[i].path, fetch(files[i].path)))
  }

  /**
   * `combinedContent` after background.js:267-289: the joined, trimmed
   * blocks, or the fallback prompt when they trim to nothing.
   */
  function RepoSnapshot(files: seq<TreeEntry>, fetch: string -> Option<string>): (r: string)
    ensures r != ""
    ensures r != FallbackPrompt ==> r == Trim(Join(FileBlocks(files, fetch), BlockSeparator))
  {
    var joined := Trim(Join(FileBlocks(files, fetch), BlockSeparator));
    if joined == "" then FallbackPrompt else joined
  }

  /** A block is blank exactly when its file was not downloaded: a downloaded one starts with `//`. */
  lemma BlockBlank(path: string, fetched: Option<string>)
    ensures AllTrimmable(FileBlock(path, fetched)) <==> fetched.None?
  {
    if fetched.Some? { assert FileBlock(path, fetched)[0] == '/'; }
  }

  /**
   * The fallback prompt is used exactly when no chosen file was downloaded:
   * the separator is blank, so the joined blocks trim to nothing exactly
   * when every block is blank, and the fallback prompt itself starts with a
   * blank, so trimming never produces it.
   */
  lemma FallbackIffNothingFetched(files: seq<TreeEntry>, fetch: string -> Option<string>)
    ensures RepoSnapshot(files, fetch) == FallbackPrompt
            <==> forall i :: 0 <= i < |files| ==> fetch(files[i].path).None?
  {
    var blocks := FileBlocks(files, fetch);
    assert AllTrimmable(BlockSeparator) by { assert BlockSeparator == ['\n', '\n']; }
    JoinAll(blocks, BlockSeparator, IsTrimmable);
    forall i | 0 <= i < |files| ensures AllTrimmable(blocks[i]) <==> fetch(files[i].path).None? {
      BlockBlank(files[i].path, fetch(files[i].path));
    }
    var t := Trim(Join(blocks, BlockSeparator));
    if t != "" {
      assert !IsTrimmable(t[0]);
      assert FallbackPrompt[0] == '\n' by { assert |FallbackPrompt| > 0; }
    }
  }

  /** `[-_]` replaced by a space (background.js:291). */
  function Spaced(c: char): char {
    if c == '-' || c == '_' then ' ' else c
  }

  /**
   * The displayed project name: `repo` with `-` and `_` turned into spaces
   * and the first character upper-cased (background.js:291-292). Repository
   * names are ASCII, so `toUpperCase` on the first character is ASCII
   * upper-casing.
   */
  function DisplayName(repo: string): (name: string)
    requires GitHubUrl.AllRepoChars(repo)
    ensures |name| == |repo|
    ensures forall i :: 0 <= i < |name| ==> name[i] != '-' && name[i] != '_'
    ensures forall i :: 0 <= i < |name| ==> (name[i] == ' ' <==> repo[i] == '-' || repo[i] == '_')
    ensures forall i :: 0 < i < |name| ==> name[i] == Spaced(repo[i])
    ensures |name| > 0 ==> name[0] == UpperAscii(Spaced(repo[0])) && !('a' <= name[0] <= 'z')
  {
    var spaced := seq(|repo|, i requires 0 <= i < |repo| => Spaced(repo[i]));
    if spaced == [] then [] else [UpperAscii(spaced[0])] + spaced[1..]
  }

  /** `# `, the display name, a space, the rocket emoji and a blank line (background.js:292). */
  function TitleLine(repo: string): (t: string)
    requires GitHubUrl.AllRepoChars(repo)
    ensures |t| == |repo| + 6
    ensures t[..2] == "# " && t[2..|repo| + 2] == DisplayName(repo)
    ensures EndsWith(t, " \U{1F680}\n\n")
  {
    "# " + DisplayName(repo) + " \U{1F680}\n\n"
  }

  /** The prompt of background.js:294. */
  function Prompt(repo: string, files: seq<TreeEntry>, fetch: string -> Option<string>): (p: string)
    requires GitHubUrl.AllRepoChars(repo)
    ensures |p| == |TitleLine(repo)| + |RepoSnapshot(files, fetch)| + |PromptSuffix|
    ensures TitleLine(repo) <= p && EndsWith(p, PromptSuffix)
    ensures p[|TitleLine(repo)|..|p| - |PromptSuffix|] == RepoSnapshot(files, fetch)
  {
    TitleLine(repo) + RepoSnapshot(files, fetch) + PromptSuffix
  }

  /**
   * Everything `generateReadmeForRepo` computes before it calls the model
   * (background.js:236-294): an invalid URL and a failed tree request are
   * reported with their messages; otherwise the prompt built from the
   * selected files.
   */
  function PrepareReadmePrompt(url: string, tree: TreeReply, fetch: string -> Option<string>): (r: Result<string>)
    ensures GitHubUrl.ParseGitHubUrl(url).None? ==> r == Err(InvalidUrlMessage)
    ensures GitHubUrl.ParseGitHubUrl(url).Some? && tree.TreeNotOk? ==> r == Err(TreeFailedMessage)
    ensures r.Ok? <==> GitHubUrl.ParseGitHubUrl(url).Some? && tree.TreeBody?
    ensures r.Ok? ==>
      var repo := GitHubUrl.ParseGitHubUrl(url).value.repo;
      var snapshot := RepoSnapshot(SelectFiles(tree.tree), fetch);
      r.value == TitleLine(repo) + snapshot + PromptSuffix
  {
    match GitHubUrl.ParseGitHubUrl(url)
    case None => Err(InvalidUrlMessage)
    case Some(info) =>
      match tree
      case TreeNotOk => Err(TreeFailedMessage)
      case TreeBody(entries) => Ok(Prompt(info.repo, SelectFiles(entries), fetch))
  }

  /**
   * For a URL of the form `https://github.com/<owner>/<repo>` the prompt is
   * titled after `repo`, and falls back to the canned text exactly when none
   * of the selected files could be downloaded.
   */
  lemma PromptForRepoUrl(owner: string, repo: string, entries: Option<seq<TreeEntry>>,
                         fetch: string -> Option<string>)
    requires GitHubUrl.IsOwner(owner) && GitHubUrl.IsSegment(repo) && !EndsWith(repo, ".git")
    ensures var r := PrepareReadmePrompt("https://github.com/" + owner + "/" + repo, TreeBody(entries), fetch);
      var files := SelectFiles(entries);
      r.Ok? && r.value == TitleLine(repo) + RepoSnapshot(files, fetch) + PromptSuffix
      && (RepoSnapshot(files, fetch) == FallbackPrompt
          <==> forall i :: 0 <= i < |files| ==> fetch(files[i].path).None?)
  {
    GitHubUrl.ParsePlainUrl(owner, repo);
    FallbackIffNothingFetched(SelectFiles(entries), fetch);
  }
}
