# repoanalyzer in Dafny

A model of the GitHub AI Analyzer page. It has three parts.

- **Repository retrieval** (`GitHub`, from `src/lib/github.ts`). Owner and repository are taken positionally from `url.split('/')`. The root of the repository is listed once. Only entries of type `file` are kept, in listing order. Each file's `content` is fetched and decoded. The result is all-or-nothing.
- **Prompt assembly** (`Ai`, from `src/lib/ai.ts`). Each file becomes the block `path:\ncontent\n---`, and the blocks are joined by newlines. The summary message puts `Analyze this repository:\n\n` in front. The question message puts `Repository content:\n\n` in front and `\n\nQuestion: <question>` after. Each request has exactly two messages, system then user, for model `gpt-4`. The reply is the first choice's content.
- **Page state** (`App.Session`, from `src/App.tsx`). A class with the page's state fields and the two form handlers. The question handler has a guard, both handlers' `catch` blocks use the same error-message mapping, and the `finally` clears `loading`.

`Types` holds the shared values: `Option`, `Result`, the thrown value `Thrown`, and `RepoFile`. `Strings` holds JavaScript's `join` and `split` with a one-character separator, with their round-trip lemmas.

External calls are parameters of the model:

- `list` stands for the root `getContent` call.
- `fetch` stands for a file's `getContent` call and returns the Base64 `content` field.
- `decode` stands for `Buffer.from(..., 'base64').toString()`.
- `complete` stands for the OpenAI `chat.completions.create` call and receives the API key and the request.

Each handler returns the chat requests it sent. This lets the model state that a rejected question sends nothing.

Two facts about the code shape the model:

- Only the root is listed. The listing call passes `recursive: true`, but the code never descends into a directory entry; it drops every entry that is not a `file`.
- A caught error is shown as its `message` when it is an `Error` instance, and as `An error occurred` for any other thrown value; there is no finer classification of errors.

## Model

| member | source | states |
|---|---|---|
| Strings.Split | src/lib/github.ts:7 | `split('/')` gives at least one piece, and no piece contains the separator |
| Strings.SplitCount | src/lib/github.ts:7 | there is exactly one more piece than there are separators |
| Strings.SplitConcat | src/lib/github.ts:7 | splitting `a + "/" + b` gives the pieces of `a` followed by the pieces of `b` |
| Strings.JoinSplit | src/lib/github.ts:7 | joining the pieces with the separator gives back the original string |
| Strings.SplitJoin | src/lib/github.ts:7 | splitting a join of separator-free pieces gives back the pieces |
| Strings.Join | src/lib/ai.ts:22 | `join` of no parts is `""`; a join of one or more parts starts with the first part |
| Strings.JoinLength | src/lib/ai.ts:22 | a join is exactly as long as its parts plus one separator between neighbours, so nothing is truncated |
| Strings.JoinAt | src/lib/ai.ts:22 | every part appears unchanged at its offset in the join |
| Strings.JoinAppend | src/lib/ai.ts:22 | the join of two non-empty lists is the two joins with one separator between them, so order is kept |
| GitHub.Segment | src/lib/github.ts:7 | a destructured segment is defined exactly when the split has that many pieces, and it contains no `/` |
| GitHub.OwnerRepoOfGitHubUrl | src/lib/github.ts:7 | for `https://github.com/o/r` followed by nothing or by a `/`-led tail, owner is `o` and repo is `r`; the tail is ignored |
| GitHub.Owner | src/lib/github.ts:7 | owner is undefined exactly when the URL has fewer than 3 slashes; when defined it contains no `/` |
| GitHub.Repo | src/lib/github.ts:7 | repo is undefined exactly when the URL has fewer than 4 slashes; when defined it contains no `/` |
| GitHub.RootRequest | src/lib/github.ts:10-15 | the single listing call asks for path `''` with the URL's owner and repo and `recursive: true` |
| GitHub.FileRequest | src/lib/github.ts:22-26 | a file's call carries that entry's path, no `recursive` flag, and the same owner and repo as the listing call |
| GitHub.FileEntries | src/lib/github.ts:18-32 | a listing that is not an array gives no entries; an array gives exactly its entries of type `file` |
| GitHub.FilterFiles | src/lib/github.ts:20 | an entry is kept exactly when it is in the listing and has type `file`; the result is no longer than the listing |
| GitHub.FilterFilesAppend | src/lib/github.ts:20 | filtering distributes over concatenation, so listing order is kept |
| GitHub.FilterFilesCount | src/lib/github.ts:20 | the filtered list has one element per `file` entry |
| GitHub.FetchAll | src/lib/github.ts:17-33 | succeeds exactly when every file fetch succeeds; then element i is entry i's path with the decoded content fetched for that path; otherwise the error is that of the first failing fetch |
| GitHub.GetRepoContent | src/lib/github.ts:3-40 | a failed listing is rethrown unchanged; otherwise the result is the fetch-all over the `file` entries (none for a non-array listing) |
| GitHub.Requests | src/lib/github.ts:10-26 | the calls issued are the root listing and then one non-recursive call per `file` entry, in order, each with the URL's owner and repo and that entry's path; there is never one for a directory |
| GitHub.RetrievedFiles | src/lib/github.ts:17-35 | a successful result has one file per `file` entry of the root listing, in order, each with its own path and the decode of the content fetched for that path |
| GitHub.NoFilesIsEmptyResult | src/lib/github.ts:18-32 | a non-array listing, or one with no `file` entry, yields the empty list and not an error |
| GitHub.OneFailureFailsAll | src/lib/github.ts:17-39 | if any file fetch fails, the retrieval fails with an error one of the fetches produced, and no list is returned |
| Ai.Block | src/lib/ai.ts:22 | a file's block is its path, then `:\n`, then its content, then `\n---`, and exactly 6 characters longer than path and content together |
| Ai.Blocks | src/lib/ai.ts:22 | the joined blocks are empty exactly when there is no file, are the single block for one file, and start with the first file's block |
| Ai.AnalyzeRequest | src/lib/ai.ts:6-25 | model `gpt-4`; exactly two messages, the summary system text and then a user text that is `Analyze this repository:\n\n` followed by the blocks |
| Ai.AskRequest | src/lib/ai.ts:37-49 | model `gpt-4`; exactly two messages, the question system text and then a user text that is `Repository content:\n\n`, the blocks, `\n\nQuestion: ` and the question |
| Ai.FirstChoiceContent | src/lib/ai.ts:27 | the reply is the first choice's content, which may be null; with no choice, reading `choices[0].message` throws a `TypeError`, an `Error` instance carrying its message |
| Ai.AnalyzeRepo | src/lib/ai.ts:3-28 | a failure of the completion call is passed through unchanged; otherwise the result is the first choice's content of the summary request's completion |
| Ai.AskQuestion | src/lib/ai.ts:30-52 | a failure of the completion call is passed through unchanged; otherwise the result is the first choice's content of the question request's completion |
| Ai.BlocksLength | src/lib/ai.ts:22 | for n >= 1 files the joined blocks are exactly Σ(length of path + length of content + 6) + (n - 1) long |
| Ai.FileInBlocks | src/lib/ai.ts:22 | at file i's offset the joined blocks hold its whole path, then `:\n`, its whole content, then `\n---` |
| Ai.BlocksAppend | src/lib/ai.ts:22 | the blocks of two file lists are the blocks of each, separated by one newline |
| Ai.AnalyzeNoFiles | src/lib/ai.ts:22 | with no file, the summary user text is exactly `Analyze this repository:\n\n` |
| Ai.SameBlocksInBothPrompts | src/lib/ai.ts:22-46 | both user texts, with their fixed prefix and the question suffix removed, are the same string |
| Ai.AskExample | src/lib/ai.ts:46 | files `a.ts`/`x` and `b.ts`/`y` with question `q` give `Repository content:\n\na.ts:\nx\n---\nb.ts:\ny\n---\n\nQuestion: q` |
| App.ErrorText | src/App.tsx:26 | a thrown `Error` is shown as its `message`; any other thrown value as `An error occurred` (the same mapping at line 44) |
| App.OrEmpty | src/App.tsx:24 | a reply is stored as it is, and a `null` reply as `''` (the same at line 42) |
| App.Session.constructor | src/App.tsx:7-14 | all text fields start empty, `files` starts as `[]`, and `loading` starts false |
| App.Session.HandleAnalyze | src/App.tsx:16-30 | `loading` ends false and `answer` and `question` are untouched. A failed retrieval leaves `files` and `summary` as they were, sends no chat request and shows the error's text. A successful retrieval stores the files and sends one summary request. If that request then fails, the old `summary` stays and the error text is shown; otherwise `summary` is the reply or `''`, and `error` is cleared |
| App.Session.HandleAskQuestion | src/App.tsx:32-48 | `files` and `summary` are never changed. With no files it shows `Please analyze a repository first`, sends nothing, and leaves `loading` and `answer` as they were. Otherwise it sends one question request over the held files and question, `loading` ends false, and `answer` becomes the reply or `''` with `error` cleared, or `answer` stays and the error text is shown |
| App.RootWithoutFiles | src/App.tsx:21-37 | for a root listing with only a directory and a non-empty reply, the question form is shown after analysis, yet the next question is rejected with the guard message, and only one model call is made in all |

## Left out

- The Octokit and OpenAI network calls are not modelled. They become the parameters `list`, `fetch` and `complete`, which map a request to an outcome. The `token` argument of `getRepoContent` is not modelled either, because the page never passes it.
- `Buffer.from(..., 'base64').toString()` is the parameter `decode`. Node's lenient Base64 and UTF-8 decoding is library code and is not modelled.
- The per-file `getContent` response is taken to carry a `content` string. A response without one makes `Buffer.from` throw; the model treats that only as a failing `fetch`.
- GitHub.FetchAll: when several fetches fail, `Promise.all` rejects with whichever fails first in time. The model picks the failure with the lowest index. Completion timing and concurrency are not modellable here. GitHub.OneFailureFailsAll states only that the error comes from some failing fetch.
- Ai.FirstChoiceContent: an empty `choices` array makes `choices[0].message` throw a `TypeError`. The model gives that error the V8 message text `Cannot read properties of undefined (reading 'message')`. Other engines word it differently.
- `console.error` logging in the catch of `getRepoContent` is output only and is not modelled.
- Presentation is not modelled: the JSX, styling, icons, `disabled={loading}`, the per-line rendering of `summary` and `answer`, and the `onChange` setters of the inputs. `App.Session.QuestionFormShown` keeps only the condition that shows the question form.
- React state batching, the double-submit race between overlapping handlers, and the transient `loading = true` while a call is pending are not modelled. Each handler is modelled as one sequential step from its start to its end.
