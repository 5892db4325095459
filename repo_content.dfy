/**
 * `fetchGitHubRepoContent` (background.js:25-89): request a fixed list of
 * well-known files one after another, append every file that came back, and
 * guess from which files exist whether the project is full-stack and has an
 * API. The function is not called by the rest of background.js (line 296
 * passes `true, true` instead), but it is modelled for completeness.
 *
 * `replies[i]` is what the request for `FilesToFetch[i]` produced.
 */
module RepoContent {
  import opened Wrappers
  import opened JsText

  /** background.js:31-47, in order. */
  const FilesToFetch: seq<string> := [
    "package.json", "requirements.txt", "pom.xml", "build.gradle",
    "index.js", "app.js", "main.js", "index.py", "main.py",
    "src/main.go", "main.go", "README.md", "LICENSE",
    "server.js", "routes.js", "api.js", "index.html", "src/index.js", "src/App.js",
    "openapi.yaml", "swagger.json", "docker-compose.yml", ".env.example", "manage.py"]

  /** The two lists that set `isFullStack` (background.js:65, 68) and the one that sets `hasApi` (71). */
  const BackendMarkers: seq<string> :=
    ["server.js", "routes.js", "api.js", "requirements.txt", "pom.xml", "build.gradle", "main.go", "manage.py"]
  const FrontendMarkers: seq<string> := ["index.html", "src/index.js", "src/App.js"]
  const ApiMarkers: seq<string> := ["openapi.yaml", "swagger.json", "routes.js", "api.js"]

  const NoContentMessage: string :=
    "Could not fetch any relevant file content from the repository. Please ensure it's a public repository or try again."

  /** A rejected request, or a response with its status and its text (`None`: `text()` rejected). */
  datatype FileReply = FetchFault | FileResponse(status: int, text: Option<string>)

  datatype GatheredContent = GatheredContent(content: string, isFullStack: bool, hasApi: bool)

  /** The reply adds to the content: an ok status whose text could be read. */
  predicate Fetched(r: FileReply) {
    r.FileResponse? && 200 <= r.status <= 299 && r.text.Some?
  }

  predicate MarksFullStack(path: string) { path in BackendMarkers || path in FrontendMarkers }

  predicate MarksApi(path: string) { path in ApiMarkers }

  /** The block appended for one file (background.js:63). */
  function Section(path: string, text: string): (r: string)
    ensures |r| == |path| + |text| + 17
    ensures r[..11] == "\n--- File: " && EndsWith(r, " ---\n" + text + "\n")
  {
    "\n--- File: " + path + " ---\n" + text + "\n"
  }

  /** The content gathered from the first `n` files. */
  function Collected(replies: seq<FileReply>, n: nat): string
    requires n <= |replies| && n <= |FilesToFetch|
  {
    if n == 0 then ""
    else if Fetched(replies[n - 1]) then
      Collected(replies, n - 1) + Section(FilesToFetch[n - 1], replies[n - 1].text.value)
    else Collected(replies, n - 1)
  }

  /**
   * The content only grows by appending: what was gathered from the first
   * `n` files is a prefix of what is gathered from the first `m`.
   */
  lemma {:induction false} CollectedGrows(replies: seq<FileReply>, n: nat, m: nat)
    requires n <= m <= |replies| && m <= |FilesToFetch|
    ensures Collected(replies, n) <= Collected(replies, m)
    decreases m - n
  {
    if n < m {
      CollectedGrows(replies, n, m - 1);
      assert Collected(replies, m - 1) <= Collected(replies, m);
    }
  }

  /** Some file among the first `n` was fetched and its path satisfies `marks`. */
  function Seen(replies: seq<FileReply>, n: nat, marks: string -> bool): (b: bool)
    requires n <= |replies| && n <= |FilesToFetch|
    ensures b <==> exists j :: 0 <= j < n && Fetched(replies[j]) && marks(FilesToFetch[j])
  {
    if n == 0 then false
    else Seen(replies, n - 1, marks) || (Fetched(replies[n - 1]) && marks(FilesToFetch[n - 1]))
  }

  /** Holds of every path: `Seen(replies, n, AnyPath)` says some file was fetched. */
  predicate AnyPath(path: string) { true }

  /** A section always has visible text, so it is never blank. */
  lemma SectionNotBlank(before: string, path: string, text: string)
    ensures !AllTrimmable(before + Section(path, text))
  {
    var t := before + Section(path, text);
    assert t[|before| + 1] == '-';
  }

  /** The collected content is blank exactly when none of the first `n` files was fetched. */
  lemma {:induction false} CollectedBlank(replies: seq<FileReply>, n: nat)
    requires n <= |replies| && n <= |FilesToFetch|
    ensures AllTrimmable(Collected(replies, n)) <==> !Seen(replies, n, AnyPath)
  {
    if n > 0 {
      CollectedBlank(replies, n - 1);
      if Fetched(replies[n - 1]) {
        SectionNotBlank(Collected(replies, n - 1), FilesToFetch[n - 1], replies[n - 1].text.value);
      }
    }
  }

  /**
   * The loop of background.js:51-82 and the check of background.js:84-86.
   * The call fails exactly when no file was fetched; otherwise the content is
   * the files' sections in list order and each flag is set exactly when one
   * of its marker files was fetched. A failed request, a 404 and any other
   * status add nothing (background.js:74-81).
   */
  method FetchGitHubRepoContent(replies: seq<FileReply>) returns (r: Result<GatheredContent>)
    requires |replies| == |FilesToFetch|
    ensures r.Ok? <==> exists i :: 0 <= i < |replies| && Fetched(replies[i])
    ensures r.Err? ==> r.message == NoContentMessage
    ensures r.Ok? ==> r.value.content == Collected(replies, |replies|)
    ensures r.Ok? ==> (r.value.isFullStack <==>
      exists i :: 0 <= i < |replies| && Fetched(replies[i]) && MarksFullStack(FilesToFetch[i]))
    ensures r.Ok? ==> (r.value.hasApi <==>
      exists i :: 0 <= i < |replies| && Fetched(replies[i]) && MarksApi(FilesToFetch[i]))
  {
    var combined := "";
    var isFullStack := false;
    var hasApi := false;
    for i := 0 to |FilesToFetch|
      invariant combined == Collected(replies, i)
      invariant isFullStack == Seen(replies, i, MarksFullStack)
      invariant hasApi == Seen(replies, i, MarksApi)
    {
      var path := FilesToFetch[i];
      var reply := replies[i];
      if reply.FileResponse? && 200 <= reply.status <= 299 {
        if reply.text.Some? {
          combined := combined + Section(path, reply.text.value);
          if path in BackendMarkers { isFullStack := true; }
          if path in FrontendMarkers { isFullStack := true; }
          if path in ApiMarkers { hasApi := true; }
        }
        // `None`: `response.text()` rejected; the `catch` only logs
      }
      // a 404, another status, or a rejected request: only logged
    }
    CollectedBlank(replies, |replies|);
    assert Seen(replies, |replies|, AnyPath) <==> exists i :: 0 <= i < |replies| && Fetched(replies[i]);
    if Trim(combined) == "" {
      r := Err(NoContentMessage);
    } else {
      r := Ok(GatheredContent(combined, isFullStack, hasApi));
    }
  }
}
