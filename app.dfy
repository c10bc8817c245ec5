/** The page state of `App` and its two form handlers, `handleAnalyze` and
    `handleAskQuestion`. Each awaited call is a pure function of the model
    (`GitHub.GetRepoContent`, `Ai.AnalyzeRepo`, `Ai.AskQuestion`) applied to
    the outcome parameters that stand for the network; each handler also
    returns the chat-completion requests it issued, so that "no model call"
    can be stated. */
module App {
  import opened Types
  import GitHub
  import Ai

  const AnalyzeFirstMessage: string := "Please analyze a repository first"

  const FallbackMessage: string := "An error occurred"

  /** `err instanceof Error ? err.message : 'An error occurred'`. */
  function ErrorText(t: Thrown): (m: string)
    ensures t.ErrorObject? ==> m == t.message
    ensures t.OtherValue? ==> m == "An error occurred"
  {
    match t
    case ErrorObject(m) => m
    case OtherValue => FallbackMessage
  }

  /** `reply || ''`: a `null` or empty reply becomes the empty string. */
  function OrEmpty(reply: Option<string>): (s: string)
    ensures reply.Some? ==> s == reply.value
    ensures reply.None? ==> s == ""
  {
    match reply
    case Some(s) => s
    case None => ""
  }

  class Session {
    var apiKey: string
    var repoUrl: string
    var loading: bool
    var summary: string
    var question: string
    var answer: string
    var files: seq<RepoFile>
    var error: string

    /** The initial `useState` values. */
    constructor ()
      ensures apiKey == "" && repoUrl == "" && !loading && summary == ""
      ensures question == "" && answer == "" && files == [] && error == ""
    {
      apiKey, repoUrl, loading, summary := "", "", false, "";
      question, answer, files, error := "", "", [], "";
    }

    /** The question form is rendered exactly when `summary` is non-empty. */
    predicate QuestionFormShown()
      reads this
    {
      summary != ""
    }

    /** `handleAnalyze`: fetch the repository, store its files, then ask for
        a summary; any failure ends the `try` with its message shown, and
        `loading` is cleared in every case. */
    method HandleAnalyze(list: GitHub.Request -> Result<GitHub.Listing, Thrown>,
                         fetch: GitHub.Request -> Result<string, Thrown>,
                         decode: string -> string,
                         complete: (string, Ai.ChatRequest) -> Result<Ai.Completion, Thrown>)
      returns (modelCalls: seq<Ai.ChatRequest>)
      modifies this
      ensures !loading
      ensures apiKey == old(apiKey) && repoUrl == old(repoUrl)
      ensures question == old(question) && answer == old(answer)
      ensures
        var got := GitHub.GetRepoContent(old(repoUrl), list, fetch, decode);
        got.Failure? ==>
          modelCalls == [] && files == old(files) && summary == old(summary) &&
          error == ErrorText(got.error)
      ensures
        var got := GitHub.GetRepoContent(old(repoUrl), list, fetch, decode);
        got.Success? ==>
          var reply := Ai.AnalyzeRepo(old(apiKey), got.value, complete);
          modelCalls == [Ai.AnalyzeRequest(got.value)] && files == got.value &&
          (reply.Failure? ==> summary == old(summary) && error == ErrorText(reply.error)) &&
          (reply.Success? ==> summary == OrEmpty(reply.value) && error == "")
    {
      loading := true;
      error := "";
      modelCalls := [];
      var got := GitHub.GetRepoContent(repoUrl, list, fetch, decode);
      match got {
        case Failure(e) =>
          error := ErrorText(e);
        case Success(repoFiles) =>
          files := repoFiles;
          modelCalls := [Ai.AnalyzeRequest(repoFiles)];
          var reply := Ai.AnalyzeRepo(apiKey, repoFiles, complete);
          match reply {
            case Failure(e) =>
              error := ErrorText(e);
            case Success(content) =>
              summary := OrEmpty(content);
          }
      }
      loading := false;
    }

    /** `handleAskQuestion`: rejected locally, before anything else, when no
        file is held; otherwise one question request over the held files. */
    method HandleAskQuestion(complete: (string, Ai.ChatRequest) -> Result<Ai.Completion, Thrown>)
      returns (modelCalls: seq<Ai.ChatRequest>)
      modifies this
      ensures apiKey == old(apiKey) && repoUrl == old(repoUrl) && question == old(question)
      ensures files == old(files) && summary == old(summary)
      ensures old(files) == [] ==>
        modelCalls == [] && error == AnalyzeFirstMessage &&
        loading == old(loading) && answer == old(answer)
      ensures old(files) != [] ==>
        var reply := Ai.AskQuestion(old(apiKey), old(files), old(question), complete);
        !loading && modelCalls == [Ai.AskRequest(old(files), old(question))] &&
        (reply.Failure? ==> answer == old(answer) && error == ErrorText(reply.error)) &&
        (reply.Success? ==> answer == OrEmpty(reply.value) && error == "")
    {
      modelCalls := [];
      if |files| == 0 {
        error := AnalyzeFirstMessage;
        return;
      }
      loading := true;
      error := "";
      modelCalls := [Ai.AskRequest(files, question)];
      var reply := Ai.AskQuestion(apiKey, files, question, complete);
      match reply {
        case Failure(e) =>
          error := ErrorText(e);
        case Success(content) =>
          answer := OrEmpty(content);
      }
      loading := false;
    }
  }

  /** The guard tests `files`, not `summary`: a repository whose root holds
      no file still gets a summary (so the question form is shown), yet
      every question is then rejected without a model call. */
  method RootWithoutFiles(url: string, key: string, q: string, reply: string)
    returns (formShown: bool, shownError: string, modelCalls: nat)
    requires reply != ""
    ensures formShown && shownError == AnalyzeFirstMessage && modelCalls == 1
  {
    var s := new Session();
    s.repoUrl, s.apiKey, s.question := url, key, q;
    var dirsOnly := GitHub.EntryArray([GitHub.Entry("src", GitHub.Dir)]);
    var list := (r: GitHub.Request) => Success(dirsOnly);
    var fetch := (r: GitHub.Request) => Failure(OtherValue);
    var decode := (raw: string) => raw;
    var complete := (k: string, c: Ai.ChatRequest) => Success(Ai.Completion([Ai.Choice(Some(reply))]));
    GitHub.NoFilesIsEmptyResult(url, list, fetch, decode);
    var first := s.HandleAnalyze(list, fetch, decode, complete);
    formShown := s.QuestionFormShown();
    var second := s.HandleAskQuestion(complete);
    shownError := s.error;
    modelCalls := |first| + |second|;
  }
}
