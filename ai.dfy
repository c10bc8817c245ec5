/** `analyzeRepo` and `askQuestion`: each builds one chat-completion request
    of two messages (a fixed system text, then a user text made of every
    file's block) and returns the first choice's content.

    The chat-completion endpoint is not part of the model: it is the
    parameter `complete`, which receives the API key and the request. */
module Ai {
  import opened Types
  import Strings

  datatype Role = System | User

  datatype Message = Message(role: Role, content: string)

  datatype ChatRequest = ChatRequest(model: string, messages: seq<Message>)

  /** The part of a completion the source reads: the choices, each with a
      message content that may be `null`. */
  datatype Choice = Choice(content: Option<string>)

  datatype Completion = Completion(choices: seq<Choice>)

  const ModelName := "gpt-4"

  const AnalyzeSystemText: string :=
    "You are a code analysis expert. Analyze the GitHub repository content and provide a high-level overview, including: "
    + "      1. Project purpose and technologies used, "
    + "      2. Main file structure and notable files, "
    + "      3. Code quality and documentation status, "
    + "      4. Recent development activity and key updates, "
    + "      5. Community engagement (issues, pull requests, contributions), "
    + "      6. Areas needing improvement (open issues, outdated dependencies). "
    + "      Keep it concise yet detailed enough to give a comprehensive understanding."

  const AskSystemText: string :=
    "You are a code expert. Answer questions about the repository content accurately and concisely."

  const AnalyzePrefix: string := "Analyze this repository:\n\n"

  const AskPrefix: string := "Repository content:\n\n"

  const QuestionMarker: string := "\n\nQuestion: "

  /** What reading `choices[0].message` throws when there is no choice. */
  const NoChoiceMessage: string := "Cannot read properties of undefined (reading 'message')"

  /** One file as it appears in a prompt: `${path}:\n${content}\n---`. */
  function Block(f: RepoFile): (b: string)
    ensures |b| == |f.path| + |f.content| + 6
    ensures b[..|f.path|] == f.path && b[|f.path|..|f.path| + 2] == ":\n"
    ensures b[|f.path| + 2..|f.path| + 2 + |f.content|] == f.content
    ensures b[|f.path| + 2 + |f.content|..] == "\n---"
  {
    f.path + ":\n" + f.content + "\n---"
  }

  function BlockList(files: seq<RepoFile>): (bs: seq<string>)
    ensures |bs| == |files|
    ensures forall i | 0 <= i < |files| :: bs[i] == Block(files[i])
  {
    seq(|files|, i requires 0 <= i < |files| => Block(files[i]))
  }

  /** `files.map(...).join('\n')`, shared by both user messages. */
  function Blocks(files: seq<RepoFile>): (b: string)
    ensures b == "" <==> |files| == 0
    ensures |files| == 1 ==> b == Block(files[0])
    ensures |files| >= 1 ==> Block(files[0]) <= b
  {
    Strings.Join(BlockList(files), "\n")
  }

  function AnalyzeUserText(files: seq<RepoFile>): string
  {
    AnalyzePrefix + Blocks(files)
  }

  function AskUserText(files: seq<RepoFile>, question: string): string
  {
    AskPrefix + Blocks(files) + QuestionMarker + question
  }

  /** The request `analyzeRepo` sends: model `gpt-4`, the system text, then
      the user text, and nothing else. */
  function AnalyzeRequest(files: seq<RepoFile>): (r: ChatRequest)
    ensures r.model == ModelName && |r.messages| == 2
    ensures r.messages[0] == Message(System, AnalyzeSystemText)
    ensures r.messages[1].role == User
    ensures |AnalyzePrefix| <= |r.messages[1].content|
    ensures r.messages[1].content[..|AnalyzePrefix|] == AnalyzePrefix
    ensures r.messages[1].content[|AnalyzePrefix|..] == Blocks(files)
  {
    ChatRequest(ModelName, [Message(System, AnalyzeSystemText), Message(User, AnalyzeUserText(files))])
  }

  /** The request `askQuestion` sends: model `gpt-4`, the system text, then
      the user text ending in the question, and nothing else. */
  function AskRequest(files: seq<RepoFile>, question: string): (r: ChatRequest)
    ensures r.model == ModelName && |r.messages| == 2
    ensures r.messages[0] == Message(System, AskSystemText)
    ensures r.messages[1].role == User
    ensures
      var t := r.messages[1].content;
      var n := |t| - |question|;
      |AskPrefix| + |QuestionMarker| <= n &&
      t[..|AskPrefix|] == AskPrefix &&
      t[|AskPrefix|..n - |QuestionMarker|] == Blocks(files) &&
      t[n - |QuestionMarker|..n] == QuestionMarker &&
      t[n..] == question
  {
    var t := AskUserText(files, question);
    assert t == AskPrefix + Blocks(files) + QuestionMarker + question;
    ChatRequest(ModelName, [Message(System, AskSystemText), Message(User, t)])
  }

  /** `response.choices[0].message.content`: the first choice's content,
      possibly `null`; with no choice the property read throws. */
  function FirstChoiceContent(c: Completion): (r: Result<Option<string>, Thrown>)
    ensures |c.choices| > 0 <==> r.Success?
    ensures r.Success? ==> r.value == c.choices[0].content
    ensures r.Failure? ==> r.error == ErrorObject(NoChoiceMessage)
  {
    if |c.choices| == 0 then Failure(ErrorObject(NoChoiceMessage))
    else Success(c.choices[0].content)
  }

  /** `analyzeRepo(apiKey, files)`: one call; its failure is not caught. */
  function AnalyzeRepo(apiKey: string, files: seq<RepoFile>,
                       complete: (string, ChatRequest) -> Result<Completion, Thrown>): (r: Result<Option<string>, Thrown>)
    ensures complete(apiKey, AnalyzeRequest(files)).Failure? ==>
      r == Failure(complete(apiKey, AnalyzeRequest(files)).error)
    ensures complete(apiKey, AnalyzeRequest(files)).Success? ==>
      r == FirstChoiceContent(complete(apiKey, AnalyzeRequest(files)).value)
  {
    match complete(apiKey, AnalyzeRequest(files))
    case Failure(e) => Failure(e)
    case Success(c) => FirstChoiceContent(c)
  }

  /** `askQuestion(apiKey, files, question)`: one call; its failure is not
      caught. */
  function AskQuestion(apiKey: string, files: seq<RepoFile>, question: string,
                       complete: (string, ChatRequest) -> Result<Completion, Thrown>): (r: Result<Option<string>, Thrown>)
    ensures complete(apiKey, AskRequest(files, question)).Failure? ==>
      r == Failure(complete(apiKey, AskRequest(files, question)).error)
    ensures complete(apiKey, AskRequest(files, question)).Success? ==>
      r == FirstChoiceContent(complete(apiKey, AskRequest(files, question)).value)
  {
    match complete(apiKey, AskRequest(files, question))
    case Failure(e) => Failure(e)
    case Success(c) => FirstChoiceContent(c)
  }

  // ---------------------------------------------------------------------
  // Properties of the prompts

  /** Sum over the files of `|path| + |content| + 6`. */
  function BlockSizes(files: seq<RepoFile>): nat
  {
    if |files| == 0 then 0 else |files[0].path| + |files[0].content| + 6 + BlockSizes(files[1..])
  }

  /** Nothing is truncated: the joined blocks of n >= 1 files are exactly
      the sum of `|path| + |content| + 6` plus n - 1 newlines long. */
  lemma {:induction false} BlocksLength(files: seq<RepoFile>)
    requires |files| >= 1
    ensures |Blocks(files)| == BlockSizes(files) + |files| - 1
  {
    Strings.JoinLength(BlockList(files), "\n");
    BlockListSizes(files);
  }

  lemma {:induction false} BlockListSizes(files: seq<RepoFile>)
    ensures Strings.TotalLength(BlockList(files)) == BlockSizes(files)
    decreases |files|
  {
    if |files| > 0 {
      BlockListSizes(files[1..]);
      assert BlockList(files)[1..] == BlockList(files[1..]);
    }
  }

  /** The offset of file i's block inside the joined blocks. */
  function BlockOffset(files: seq<RepoFile>, i: nat): nat
    requires i <= |files|
  {
    if i == 0 then 0 else |Block(files[0])| + 1 + BlockOffset(files[1..], i - 1)
  }

  /** Every file's path and content appear whole, in file order: file i's
      block starts at its offset, the path, then `:\n`, then the content. */
  lemma {:induction false} FileInBlocks(files: seq<RepoFile>, i: nat)
    requires i < |files|
    ensures
      var b := Blocks(files);
      var o := BlockOffset(files, i);
      var f := files[i];
      o + |f.path| + |f.content| + 6 <= |b| &&
      b[o..o + |f.path|] == f.path &&
      b[o + |f.path|..o + |f.path| + 2] == ":\n" &&
      b[o + |f.path| + 2..o + |f.path| + 2 + |f.content|] == f.content &&
      b[o + |f.path| + 2 + |f.content|..o + |f.path| + |f.content| + 6] == "\n---"
  {
    Strings.JoinAt(BlockList(files), "\n", i);
    OffsetsAgree(files, i);
    var b := Blocks(files);
    var o := BlockOffset(files, i);
    var f := files[i];
    var k := Block(f);
    var p, c := |f.path|, |f.content|;
    assert b[o..o + |k|] == k;
    SubSlice(b, o, k, 0, p);
    SubSlice(b, o, k, p, p + 2);
    SubSlice(b, o, k, p + 2, p + 2 + c);
    SubSlice(b, o, k, p + 2 + c, p + c + 6);
  }

  lemma SubSlice(b: string, o: nat, k: string, x: nat, y: nat)
    requires o + |k| <= |b| && b[o..o + |k|] == k
    requires x <= y <= |k|
    ensures b[o + x..o + y] == k[x..y]
  {
    forall j | 0 <= j < y - x
      ensures b[o + x..o + y][j] == k[x..y][j]
    {
      assert k[x + j] == b[o..o + |k|][x + j];
    }
  }

  lemma {:induction false} OffsetsAgree(files: seq<RepoFile>, i: nat)
    requires i <= |files|
    ensures Strings.Offset(BlockList(files), "\n", i) == BlockOffset(files, i)
    decreases i
  {
    if i > 0 {
      OffsetsAgree(files[1..], i - 1);
      assert BlockList(files)[1..] == BlockList(files[1..]);
    }
  }

  /** Blocks keep the file order: the blocks of two lists are the blocks of
      each, joined by one newline. */
  lemma BlocksAppend(a: seq<RepoFile>, b: seq<RepoFile>)
    requires |a| >= 1 && |b| >= 1
    ensures Blocks(a + b) == Blocks(a) + "\n" + Blocks(b)
  {
    assert BlockList(a + b) == BlockList(a) + BlockList(b);
    Strings.JoinAppend(BlockList(a), BlockList(b), "\n");
  }

  /** With no file, the summary request's user text is the bare prefix. */
  lemma AnalyzeNoFiles()
    ensures AnalyzeRequest([]).messages[1].content == "Analyze this repository:\n\n"
  {
    assert BlockList([]) == [];
  }

  /** Both builders render the files identically: stripping the fixed
      prefix (and the question suffix) leaves the same text. */
  lemma SameBlocksInBothPrompts(files: seq<RepoFile>, question: string)
    ensures
      var a := AnalyzeRequest(files).messages[1].content;
      var q := AskRequest(files, question).messages[1].content;
      a[|AnalyzePrefix|..] == q[|AskPrefix|..|q| - |QuestionMarker| - |question|]
  {
  }

  /** The two-file example of the question prompt. */
  lemma AskExample()
    ensures AskRequest([RepoFile("a.ts", "x"), RepoFile("b.ts", "y")], "q").messages[1].content
      == "Repository content:\n\na.ts:\nx\n---\nb.ts:\ny\n---\n\nQuestion: q"
  {
    var files := [RepoFile("a.ts", "x"), RepoFile("b.ts", "y")];
    TwoBlocks(files[0], files[1]);
    var blocks := "a.ts:\nx\n---" + "\n" + "b.ts:\ny\n---";
    assert Blocks(files) == blocks;
    var t := AskPrefix + blocks + QuestionMarker + "q";
    assert t == "Repository content:\n\na.ts:\nx\n---\nb.ts:\ny\n---\n\nQuestion: q";
    assert AskUserText(files, "q") == t;
    assert AskRequest(files, "q").messages[1].content == AskUserText(files, "q");
  }

  lemma TwoBlocks(f: RepoFile, g: RepoFile)
    ensures Blocks([f, g]) == Block(f) + "\n" + Block(g)
  {
    var bs := BlockList([f, g]);
    assert bs == [Block(f), Block(g)];
    assert bs[1..] == [Block(g)];
    assert Strings.Join(bs[1..], "\n") == Block(g);
    assert Strings.Join(bs, "\n") == bs[0] + "\n" + Strings.Join(bs[1..], "\n");
  }
}
