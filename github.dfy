/** `getRepoContent`: the owner and repository are read positionally from the
    URL, the repository root is listed once, the entries of type `file` are
    kept in listing order and each one's content is fetched and decoded; the
    whole retrieval fails with the first failure.

    The repository host is not part of the model: its `getContent` call is
    the parameter `list` (for the root listing) and `fetch` (for a file's
    Base64 `content` field), and Node's lenient Base64-and-UTF-8 decoder is
    the parameter `decode`. */
module GitHub {
  import opened Types
  import Strings

  /** The `type` field of a directory-listing entry. */
  datatype EntryKind = File | Dir | Symlink | Submodule

  datatype Entry = Entry(path: string, kind: EntryKind)

  /** The `data` of a `getContent` response: an array of entries for a
      directory, or some other shape (a single object) otherwise. */
  datatype Listing = EntryArray(entries: seq<Entry>) | NotArray

  /** The arguments of one `getContent` call; `owner` and `repo` are
      `undefined` when the URL has too few segments. */
  datatype Request = Request(owner: Option<string>, repo: Option<string>, path: string, recursive: bool)

  /** `url.split('/')[i]`, or `undefined` past the end. */
  function Segment(url: string, i: nat): (r: Option<string>)
    ensures r.Some? <==> i < |Strings.Split(url, '/')|
    ensures r.Some? ==> '/' !in r.value
  {
    var parts := Strings.Split(url, '/');
    if i < |parts| then Some(parts[i]) else None
  }

  /** `const [, , , owner, repo] = url.split('/')`. The URL is not validated:
      owner is `undefined` exactly when it has fewer than three slashes, repo
      exactly when it has fewer than four. */
  function Owner(url: string): (r: Option<string>)
    ensures r.None? <==> Strings.Count(url, '/') < 3
    ensures r.Some? ==> '/' !in r.value
  {
    Strings.SplitCount(url, '/');
    Segment(url, 3)
  }

  function Repo(url: string): (r: Option<string>)
    ensures r.None? <==> Strings.Count(url, '/') < 4
    ensures r.Some? ==> '/' !in r.value
  {
    Strings.SplitCount(url, '/');
    Segment(url, 4)
  }

  /** The one listing call: the root only (`path: ''`), with `recursive: true`. */
  function RootRequest(url: string): (r: Request)
    ensures r.path == "" && r.recursive
    ensures r.owner == Owner(url) && r.repo == Repo(url)
  {
    Request(Owner(url), Repo(url), "", true)
  }

  /** The call for one file: the same owner and repo as the listing call,
      the entry's own path, no `recursive` flag. */
  function FileRequest(url: string, path: string): (r: Request)
    ensures r.path == path && !r.recursive
    ensures r.owner == RootRequest(url).owner && r.repo == RootRequest(url).repo
  {
    Request(Owner(url), Repo(url), path, false)
  }

  /** `.filter(file => file.type === 'file')` over the listing entries. */
  function FilterFiles(es: seq<Entry>): (r: seq<Entry>)
    ensures |r| <= |es|
    ensures forall e :: e in r <==> e in es && e.kind == File
    decreases |es|
  {
    if |es| == 0 then []
    else if es[0].kind == File then [es[0]] + FilterFiles(es[1..])
    else FilterFiles(es[1..])
  }

  /** The entries whose content is fetched; a response that is not an array
      contributes none. */
  function FileEntries(l: Listing): (r: seq<Entry>)
    ensures l.NotArray? ==> r == []
    ensures l.EntryArray? ==> forall e :: e in r <==> e in l.entries && e.kind == File
  {
    match l
    case EntryArray(es) => FilterFiles(es)
    case NotArray => []
  }

  /** `Promise.all(files.map(...))`, taken in index order: one fetch per
      entry for that entry's own path; the first failure is the result. */
  function FetchAll(url: string, entries: seq<Entry>,
                    fetch: Request -> Result<string, Thrown>,
                    decode: string -> string): (r: Result<seq<RepoFile>, Thrown>)
    ensures r.Success? <==>
      forall i | 0 <= i < |entries| :: fetch(FileRequest(url, entries[i].path)).Success?
    ensures r.Success? ==>
      |r.value| == |entries| &&
      forall i | 0 <= i < |entries| ::
        r.value[i] == RepoFile(entries[i].path, decode(fetch(FileRequest(url, entries[i].path)).value))
    ensures r.Failure? ==>
      exists i | 0 <= i < |entries| ::
        fetch(FileRequest(url, entries[i].path)) == Failure(r.error) &&
        forall j | 0 <= j < i :: fetch(FileRequest(url, entries[j].path)).Success?
    decreases |entries|
  {
    if |entries| == 0 then Success([])
    else
      match fetch(FileRequest(url, entries[0].path))
      case Failure(e) => Failure(e)
      case Success(raw) =>
        var rest := FetchAll(url, entries[1..], fetch, decode);
        if rest.Failure? then
          assert exists i | 0 <= i < |entries[1..]| ::
            fetch(FileRequest(url, entries[1..][i].path)) == Failure(rest.error) &&
            forall j | 0 <= j < i :: fetch(FileRequest(url, entries[1..][j].path)).Success?;
          Failure(rest.error)
        else
          Success([RepoFile(entries[0].path, decode(raw))] + rest.value)
  }

  /** `getRepoContent(url)`: errors from the listing or from any file fetch
      are rethrown unchanged. */
  function GetRepoContent(url: string,
                          list: Request -> Result<Listing, Thrown>,
                          fetch: Request -> Result<string, Thrown>,
                          decode: string -> string): (r: Result<seq<RepoFile>, Thrown>)
    ensures list(RootRequest(url)).Failure? ==> r == Failure(list(RootRequest(url)).error)
    ensures list(RootRequest(url)).Success? ==>
      r == FetchAll(url, FileEntries(list(RootRequest(url)).value), fetch, decode)
  {
    match list(RootRequest(url))
    case Failure(e) => Failure(e)
    case Success(l) => FetchAll(url, FileEntries(l), fetch, decode)
  }

  /** The `getContent` calls a retrieval issues: the root listing, then one
      per file entry of that listing (never one for a directory). */
  function Requests(url: string, list: Request -> Result<Listing, Thrown>): (rs: seq<Request>)
    ensures |rs| >= 1 && rs[0] == RootRequest(url)
    ensures list(RootRequest(url)).Failure? ==> |rs| == 1
    ensures list(RootRequest(url)).Success? ==>
      var files := FileEntries(list(RootRequest(url)).value);
      |rs| == |files| + 1 &&
      forall i | 1 <= i < |rs| ::
        rs[i].owner == Owner(url) && rs[i].repo == Repo(url) && !rs[i].recursive &&
        rs[i].path == files[i - 1].path && files[i - 1].kind == File
  {
    match list(RootRequest(url))
    case Failure(_) => [RootRequest(url)]
    case Success(l) =>
      var files := FileEntries(l);
      [RootRequest(url)] + seq(|files|, i requires 0 <= i < |files| => FileRequest(url, files[i].path))
  }

  // ---------------------------------------------------------------------
  // Properties of the retrieval

  /** Filtering keeps the listing order: it distributes over concatenation. */
  lemma {:induction false} FilterFilesAppend(a: seq<Entry>, b: seq<Entry>)
    ensures FilterFiles(a + b) == FilterFiles(a) + FilterFiles(b)
    decreases |a|
  {
    if |a| == 0 {
      assert a + b == b;
    } else {
      assert (a + b)[1..] == a[1..] + b;
      FilterFilesAppend(a[1..], b);
    }
  }

  /** Number of entries whose type is `file`. */
  function CountFiles(es: seq<Entry>): nat
  {
    if |es| == 0 then 0 else (if es[0].kind == File then 1 else 0) + CountFiles(es[1..])
  }

  /** The filtered list has one element per file entry. */
  lemma {:induction false} FilterFilesCount(es: seq<Entry>)
    ensures |FilterFiles(es)| == CountFiles(es)
    decreases |es|
  {
    if |es| > 0 {
      FilterFilesCount(es[1..]);
    }
  }

  /** For the usual URL shape, owner and repository are the two path
      segments after the host; anything after the repository (such as
      `/tree/main`) is ignored. */
  lemma OwnerRepoOfGitHubUrl(o: string, r: string, tail: string)
    requires '/' !in o && '/' !in r
    requires tail == [] || tail[0] == '/'
    ensures Owner("https://github.com/" + o + "/" + r + tail) == Some(o)
    ensures Repo("https://github.com/" + o + "/" + r + tail) == Some(r)
  {
    var rt := r + tail;
    var rest: seq<string>;
    if tail == [] {
      assert rt == r;
      Strings.SplitNoSeparator(r, '/');
      rest := [r];
    } else {
      assert rt == r + ['/'] + tail[1..];
      Strings.SplitPrefix(r, tail[1..], '/');
      rest := [r] + Strings.Split(tail[1..], '/');
    }
    assert Strings.Split(rt, '/') == rest;
    GitHubUrlLiteral(o, r, tail);
    SplitGitHubUrl(o, rt);
    var parts := Strings.Split(GitHubUrl(o, rt), '/');
    assert parts == ["https:", "", "github.com", o] + rest;
    assert parts[3] == o && parts[4] == r;
  }

  lemma GitHubUrlLiteral(o: string, r: string, tail: string)
    ensures GitHubUrl(o, r + tail) == "https://github.com/" + o + "/" + r + tail
  {
    assert "https://github.com/" == "https:" + ['/'] + "" + ['/'] + "github.com" + ['/'];
  }

  /** The URL `https://github.com/<o>/<rest>`, built piece by piece. */
  function GitHubUrl(o: string, rest: string): string
  {
    "https:" + ['/'] + ("" + ['/'] + ("github.com" + ['/'] + (o + ['/'] + rest)))
  }

  lemma SplitGitHubUrl(o: string, rest: string)
    requires '/' !in o
    ensures Strings.Split(GitHubUrl(o, rest), '/') == ["https:", "", "github.com", o] + Strings.Split(rest, '/')
  {
    var s3 := o + ['/'] + rest;
    Strings.SplitPrefix(o, rest, '/');
    var s2 := "github.com" + ['/'] + s3;
    assert '/' !in "github.com";
    Strings.SplitPrefix("github.com", s3, '/');
    var s1 := "" + ['/'] + s2;
    Strings.SplitPrefix("", s2, '/');
    assert '/' !in "https:";
    Strings.SplitPrefix("https:", s1, '/');
  }

  /** The result lists exactly the `file` entries of the root listing, in
      listing order, each with the decoded content fetched for its own path. */
  lemma RetrievedFiles(url: string,
                       list: Request -> Result<Listing, Thrown>,
                       fetch: Request -> Result<string, Thrown>,
                       decode: string -> string)
    requires GetRepoContent(url, list, fetch, decode).Success?
    ensures list(RootRequest(url)).Success?
    ensures
      var files := GetRepoContent(url, list, fetch, decode).value;
      var entries := FileEntries(list(RootRequest(url)).value);
      |files| == |entries| &&
      forall i | 0 <= i < |files| ::
        entries[i].kind == File &&
        files[i].path == entries[i].path &&
        fetch(FileRequest(url, files[i].path)).Success? &&
        files[i].content == decode(fetch(FileRequest(url, files[i].path)).value)
  {
    var entries := FileEntries(list(RootRequest(url)).value);
    assert forall i | 0 <= i < |entries| :: entries[i] in entries;
  }

  /** A listing that is not an array, or that holds no `file` entry, yields
      the empty list rather than an error. */
  lemma NoFilesIsEmptyResult(url: string,
                             list: Request -> Result<Listing, Thrown>,
                             fetch: Request -> Result<string, Thrown>,
                             decode: string -> string)
    requires list(RootRequest(url)).Success?
    requires list(RootRequest(url)).value.EntryArray? ==>
      forall e | e in list(RootRequest(url)).value.entries :: e.kind != File
    ensures GetRepoContent(url, list, fetch, decode) == Success([])
  {
  }

  /** All or nothing: one failing file fetch makes the whole retrieval fail
      with a failure some fetch produced, and no list is returned. */
  lemma OneFailureFailsAll(url: string,
                           list: Request -> Result<Listing, Thrown>,
                           fetch: Request -> Result<string, Thrown>,
                           decode: string -> string,
                           k: nat)
    requires list(RootRequest(url)).Success?
    requires k < |FileEntries(list(RootRequest(url)).value)|
    requires fetch(FileRequest(url, FileEntries(list(RootRequest(url)).value)[k].path)).Failure?
    ensures GetRepoContent(url, list, fetch, decode).Failure?
    ensures exists e | e in FileEntries(list(RootRequest(url)).value) ::
      fetch(FileRequest(url, e.path)) == Failure(GetRepoContent(url, list, fetch, decode).error)
  {
    var entries := FileEntries(list(RootRequest(url)).value);
    var r := FetchAll(url, entries, fetch, decode);
    var i :| 0 <= i < |entries| && fetch(FileRequest(url, entries[i].path)) == Failure(r.error);
    assert entries[i] in entries;
  }
}
