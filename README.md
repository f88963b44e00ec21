# create-heroku-review-app: a verified model of its decision logic

This GitHub Action responds to a pull-request event. It either creates a Heroku
review app for the pull request (an ephemeral deployment built from the PR's head
commit), or it destroys the review app that already exists for it. Almost all of
`src/index.ts` is glue around two HTTP clients. This project models the decisions
inside that glue and proves them:

- **the `custom-env-vars` parser** (`parseCustomVariables`). Modules `Text` and
  `CustomVars`. The input is a multi-line `KEY=VALUE` block. It is split on `"\n"`.
  Each line is split on `"="` with ECMAScript `split` semantics, and the first two
  pieces are taken as key and value. A line is kept when both raw pieces are
  non-empty. It stores `trim(key) -> trim(value)` into a map, so a later line
  overwrites an earlier one. The parser is a method whose loop is proved against a
  pure specification (`CustomVars.Parse`). Lemmas about that specification give:
  which lines are kept, what they store, which keys appear, and that the last write
  wins.
- **the choice of the review app to destroy** (`reviewApps.find` and `if (app)`).
  Module `ReviewApps`. It is a first-match search for the pull request's number over
  the listed `{pr_number, id}` records.
- **the body of `POST /review-apps`**. Module `ReviewApps`, function
  `CreateRequestBody`.
- **the `!heroku` guard and the `switch (action)`**, and the remote requests that
  one run sends. Module `Action`. A run is a value made of the requests it sends and
  how it ends. What the remote services answer is a parameter (`Action.Remote`).

The functions that model the code itself, by module:

- `CustomVars`: `IsKept` is the `key && value` test and `LineEntry` what one line
  stores (`src/index.ts:71-73`); `Store` is the insertion into the record, a later
  line winning (`src/index.ts:70-75`); `Parse` is the whole of `parseCustomVariables`
  including the emptiness test (`src/index.ts:64-79`).
- `ReviewApps`: `FindIndex` and `DeleteTarget` are `reviewApps.find` and `if (app)`
  (`src/index.ts:51-56`); `CreateRequestBody` is the body of the POST
  (`src/index.ts:123-134`).
- `Action`: `TokenSet` is the `GITHUB_TOKEN` test (`src/index.ts:83`);
  `DestroyReviewApp` is `destroyReviewApp` (`src/index.ts:44-61`); `CreateReviewApp`
  is `createReviewApp` (`src/index.ts:81-140`); `Dispatch` and `RunAction` are the
  client guard and the switch (`src/index.ts:37-42`, `142-154`).

`Wrappers.Option` stands for JavaScript `undefined`: an unset pipeline id, a failed
call.

Three behaviours of the code are easy to misread; the model follows the code:

- The guard on the platform client (`src/index.ts:37-42`) only tests whether the
  client object exists. It does not look at `HEROKU_API_TOKEN`. So whether the
  client exists is an input of the model (`Remote.herokuClient`); it is not derived
  from the token.
- The archive request (`src/index.ts:98-104`) sits outside the `try` of
  `createReviewApp`. If it fails, the error escapes the operation instead of being
  logged (`Outcome.ErrorEscaped`). Errors from the listing, the delete and the post
  are caught and logged (`Outcome.ErrorLogged`).
- The "key and value are both non-empty" test (`src/index.ts:72`) is made before
  trimming. So a key made only of spaces is kept, and it is stored under `""`
  (`CustomVars.BlankKeyKept`).

## Model

| member | source | states |
|---|---|---|
| `Text.IndexOf` | src/index.ts:71 | the result is the position of the first separator or the length; no earlier character is the separator |
| `Text.Split` | src/index.ts:69 | `split` always yields at least one piece, and no piece contains the separator |
| `Text.JoinSplit` | src/index.ts:69 | joining the pieces with the separator gives back the string (nothing is lost by `split`) |
| `Text.SplitJoin` | src/index.ts:69 | splitting a join of separator-free pieces gives back exactly those pieces (the inverse direction) |
| `Text.SplitNoSeparator` | src/index.ts:71 | a string without the separator is one piece |
| `Text.SplitAfterPrefix` | src/index.ts:71 | a separator after a separator-free prefix ends the first piece |
| `Text.SplitFirstPieces` | src/index.ts:71 | `key` is the text before the first `=`; a second piece (`value`) exists exactly when there is an `=`, and it is the text up to the next `=` or the end |
| `Text.TrimStart` | src/index.ts:73 | result is a suffix, all removed characters are whitespace, and it does not start with whitespace |
| `Text.TrimEnd` | src/index.ts:73 | result is a prefix, all removed characters are whitespace, and it does not end with whitespace |
| `Text.Trim` | src/index.ts:73 | `trim` keeps a contiguous middle of the string, removes only whitespace around it, and leaves no whitespace at either end |
| `Text.TrimUnchanged` | src/index.ts:73 | a string with no whitespace at its ends is unchanged by `trim` |
| `Text.TrimIdempotent` | src/index.ts:73 | trimming twice is the same as trimming once |
| `Text.TrimEmpty` | src/index.ts:73 | a string trims to `""` exactly when it is all whitespace |
| `CustomVars.ParseCustomVariables` | src/index.ts:64-79 | the loop's map equals the specification `Parse` of the input: empty for an empty input, else every line stored in order |
| `CustomVars.ParseLinesStep` | src/index.ts:70-75 | handling one more line adds `trim(key) -> trim(value)` when both raw pieces are non-empty, and leaves the map as it was otherwise |
| `CustomVars.LineEntryByPosition` | src/index.ts:71-73 | a line is kept exactly when its first `=` is neither its first nor its last character and is not directly followed by `=`; it then stores the trimmed text before the first `=` under the trimmed text between the first and second `=` |
| `CustomVars.NoSeparatorDropped` | src/index.ts:71-72 | a line without `=` contributes nothing |
| `CustomVars.KeyValueLine` | src/index.ts:71-73 | `k=v` optionally followed by `=...` stores `trim(k) -> trim(v)`: text after a second `=` is dropped (`A=b=c` stores `A -> b`) |
| `CustomVars.BlankKeyKept` | src/index.ts:72-73 | the test is made before trimming: a whitespace-only key is kept and stored as `""` |
| `CustomVars.StoreKeys` | src/index.ts:73 | the stored keys are exactly the keys of the storing entries |
| `CustomVars.StoreValueFromLast` | src/index.ts:73 | the value under a key comes from the last entry that stores that key |
| `CustomVars.StoreLastWins` | src/index.ts:73 | an entry that no later entry overrides decides its key |
| `CustomVars.ParseLinesKeys` | src/index.ts:69-75 | a key is in the map if and only if some kept line has that trimmed key |
| `CustomVars.ParseLinesLastWins` | src/index.ts:69-75 | a key maps to `v` if and only if some kept line stores `key -> v` and no later kept line has that key |
| `CustomVars.ParseLinesGrows` | src/index.ts:70-75 | while the lines are processed the set of keys only grows |
| `CustomVars.EmptyInput` | src/index.ts:64-78 | an empty input gives the empty map, and the emptiness test changes nothing compared with splitting it |
| `ReviewApps.FindIndex` | src/index.ts:51 | `find` returns the first app whose `pr_number` equals the PR number, and none exactly when no app has it |
| `ReviewApps.DeleteTarget` | src/index.ts:51-54 | the id to delete is that of the first matching app, and there is none exactly when no app matches |
| `ReviewApps.FirstMatchUnique` | src/index.ts:51 | the first match is unique |
| `ReviewApps.DeleteTargetExample` | src/index.ts:51-54 | for `[{pr 5, id 1}, {pr 7, id 2}]`, PR 7 selects id 2 and PR 6 selects nothing |
| `Action.Dispatch` | src/index.ts:142-154 | Destroy if and only if the client exists and the action is `"destroy"`; Create likewise for `"create"`; otherwise no operation |
| `Action.NoClientNoRequests` | src/index.ts:37-42 | without a platform client the run sends no request and stops for that reason |
| `Action.UnknownActionNoRequests` | src/index.ts:149-153 | any action other than `"create"` and `"destroy"` sends no request |
| `Action.DestroyRequests` | src/index.ts:44-61 | destroy first lists the pipeline's apps; it deletes the first matching app's id and nothing else; it sends no delete when none matches or the listing fails; it never creates |
| `Action.AtMostOneDelete` | src/index.ts:51-56 | a run sends at most one delete, and exactly one if and only if the action is destroy, the client exists, the listing succeeds and some listed app has the PR number |
| `Action.CreateRequests` | src/index.ts:81-140 | no token: nothing is sent; a token but no Octokit client: nothing is sent; with a token and a client, the archive of the head branch is requested, and when it answers exactly one create request is sent with `branch = head.ref`, `source_blob = {url, head.sha}`, `pr_number`, the pipeline and `environment` = the parsed custom variables; no delete is sent |
| `Action.DestroyExample` | src/index.ts:51-56 | listing `[{id 1, pr 5}, {id 2, pr 7}]` with PR 7 sends the listing and a delete of app 2 only |

## Left out

- The Heroku client and Octokit calls (`heroku.get/post/delete`, `downloadTarballArchive`). They are network I/O through libraries. Only the requests a run would send, and their arguments, are modelled. What the calls return is a parameter.
- The URL strings of the requests (`/pipelines/${pipeline}/review-apps`, `/review-apps/${app.id}`). A request carries the pipeline id or the app id instead of the rendered path.
- Fire-and-forget dispatch (`src/index.ts:144`, `147`): the operations are not awaited. The model treats a run as if it completed its operation.
- Logging (`core.debug/info/error`) and `JSON.stringify` of errors, contexts and responses. Logged errors are kept only as the outcome `ErrorLogged`.
- Reading `process.env`, `core.getInput` and `github.context`. Their values are inputs (`Action.Inputs`). `getInput` trims its value by default; that is library behaviour, and the model takes the input as given.
- `getOctokit` and `new HerokuClient`: whether the clients exist is an input.
- JavaScript objects as maps: the model stores into a `map<string, string>`. In JavaScript, assigning to the key `__proto__` of a plain object goes to the prototype setter and stores nothing. The model does not reproduce that.
- JavaScript numbers are doubles. `pr_number` and `id` are unbounded integers here, compared with `==`, as the source compares two numbers.
- The example input `"FOO=bar\nBAZ = 1\nMALFORMED"` is not stated as its own lemma. Its three lines are covered by `CustomVars.KeyValueLine`, `CustomVars.NoSeparatorDropped` and `CustomVars.ParseLinesLastWins`.
- An event without a `pull_request` payload: `src/index.ts:20-21` then throws before anything is sent. In the model the pull request (`Inputs.pr`) is always present.
- JavaScript strings are sequences of UTF-16 code units; Dafny's `char` is a Unicode scalar value and cannot hold a lone surrogate. Only strings with lone surrogates are left out; splitting on `=` and `"\n"` and trimming (whose whitespace set lies in the Basic Multilingual Plane) behave the same on every other string.
