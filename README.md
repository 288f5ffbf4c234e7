# ai-skills: policy merge and Codex review helper, modelled in Dafny

This project models the two pieces of the ai-skills repository that hold
logic rather than plumbing.

- **The user-policy applier** (`scripts/apply-policy.py`). It merges the
  `permissionsAllow` list of the policy's `claude` section into
  `permissions.allow` of the Claude settings. Entries are appended in order,
  without duplicates, and missing keys are created first. When the policy's
  `gemini` section has a truthy `forceMcpTrust`, it sets `trust: true` on
  every dict-valued entry of `mcpServers` in the Gemini settings.
- **The Codex review helper**
  (`skills/code-review/codex-reviewer/scripts/codex_review.py`). It builds
  the `codex exec` argument vector and shapes the process result into a
  response. It parses the JSONL event stream line by line, skipping blank
  and undecodable lines, and takes the summary from the last completed
  agent message. It also numbers the focus areas of a focused review and
  dispatches the command-line review types to their reasoning effort.

Files:

- `wrappers.dfy`: `Option`.
- `json_value.dfy`: decoded JSON values, Python truthiness, `dict.get`, hashability.
- `py_text.dfy`: Python's `str.strip()`, `str.split(sep)`, `sep.join(...)` and
  decimal rendering, with their round trips.
- `apply_policy.dfy`: the policy applier.
- `codex_review.dfy`: the review helper.

The script mutates each settings dict in place and then writes it back.
The model works on values instead: each operation takes the stored
document (or `None` for a missing file) and returns the document that is
written back. Each loop of the source is a method with loop invariants. The
method is proved equal to a specification function, and the promised
properties are proved as lemmas about that function.

Inputs the model takes as parameters:

- The stored JSON documents.
- The JSON decoder `decode: string -> Option<Json>`, which returns `None`
  where `json.loads` raises.
- The completed `codex` process: return code, stdout and stderr.
- The wording of the predefined prompts, `render: Review -> string`.

## Model

| member | source | states |
|---|---|---|
| `ApplyPolicy.ReadJson` | scripts/apply-policy.py:6-10 | A missing file reads as the given default; an existing one as its decoded content. |
| `ApplyPolicy.MergePrefix` | scripts/apply-policy.py:25-31 | The original allow list, duplicates included, is an unchanged prefix of the merged list. |
| `ApplyPolicy.MergeMembers` | scripts/apply-policy.py:28-31 | A value is on the merged list iff it was on the original list or in the policy list; so every policy item ends up on the list. |
| `ApplyPolicy.MergeSuffixFresh` | scripts/apply-policy.py:26-31 | The appended suffix has no duplicates, even when the policy repeats an item, and contains no entry of the original list. |
| `ApplyPolicy.MergeOrder` | scripts/apply-policy.py:28-31 | Appended items keep the order of their first occurrence in the policy list. |
| `ApplyPolicy.MergeNoop` | scripts/apply-policy.py:29 | When every policy item is already on the list, the list is left as it is. |
| `ApplyPolicy.MergeIdempotent` | scripts/apply-policy.py:28-31 | Merging the same policy list twice gives the list of merging it once. |
| `ApplyPolicy.MergeAllow` | scripts/apply-policy.py:25-31 | The loop with its `allow_set` computes the merge of the policy list into the allow list. |
| `ApplyPolicy.ClaudeSettings` | scripts/apply-policy.py:22-33 | `permissions` and `allow` are created when missing; the allow list becomes the merge; every other top-level key and every other key of `permissions` is unchanged. |
| `ApplyPolicy.ClaudeIdempotent` | scripts/apply-policy.py:20-33 | Applying the Claude policy to its own result changes nothing. |
| `ApplyPolicy.EnsureClaudePermissions` | scripts/apply-policy.py:20-34 | Reading (with `{}` for a missing file), creating the keys and merging in place yields `ClaudeSettings` of the document read. |
| `ApplyPolicy.Trusted` | scripts/apply-policy.py:44-45 | A dict entry gains `trust: true` and keeps its other keys; a non-dict entry is unchanged. |
| `ApplyPolicy.TrustAll` | scripts/apply-policy.py:42-45 | Forcing trust keeps the set of server names. |
| `ApplyPolicy.TrustAllIdempotent` | scripts/apply-policy.py:43-45 | Forcing trust twice is the same as once. |
| `ApplyPolicy.ForceTrust` | scripts/apply-policy.py:42-45 | The loop over `servers.items()` sets trust on every dict entry and on nothing else. |
| `ApplyPolicy.GeminiSettings` | scripts/apply-policy.py:37-48 | Without a truthy `forceMcpTrust` the document is written back as read, whatever its type. With it, a dict without `mcpServers` is unchanged and no `mcpServers` key is added; otherwise the keys stay, and only `mcpServers` changes, to its trusted form. |
| `ApplyPolicy.GeminiTrusted` | scripts/apply-policy.py:41-45 | After a forced run every dict-valued server has `trust == true` and its other keys, and every non-dict server entry is unchanged. |
| `ApplyPolicy.GeminiIdempotent` | scripts/apply-policy.py:37-48 | Applying the Gemini policy to its own result changes nothing. |
| `ApplyPolicy.EnsureGeminiMcpTrust` | scripts/apply-policy.py:37-48 | Reading (with `{}` for a missing file) and flagging in place yields `GeminiSettings` of the document read; the document need be a dict only when trust is forced. |
| `ApplyPolicy.ApplyUserPolicy` | scripts/apply-policy.py:51-63 | The policy (`{}` when missing) sends its `claude` section to the Claude settings and its `gemini` section to the Gemini settings, each `{}` when absent. A Gemini document of any type passes through when trust is not forced. |
| `PyText.TrimStart` | skills/code-review/codex-reviewer/scripts/codex_review.py:101 | Exactly the leading whitespace is dropped. |
| `PyText.TrimEnd` | skills/code-review/codex-reviewer/scripts/codex_review.py:101 | Exactly the trailing whitespace is dropped. |
| `PyText.Strip` | skills/code-review/codex-reviewer/scripts/codex_review.py:101 | The stripped text neither starts nor ends with whitespace, and is empty iff the text is all whitespace. |
| `PyText.TrimmedInside` | skills/code-review/codex-reviewer/scripts/codex_review.py:101 | Whitespace dropped from the front and then from the back leaves a contiguous piece of the text with only whitespace on either side. |
| `PyText.StripInside` | skills/code-review/codex-reviewer/scripts/codex_review.py:101 | The stripped text is a contiguous piece of the text with only whitespace before and after it. |
| `PyText.Split` | skills/code-review/codex-reviewer/scripts/codex_review.py:101 | Splitting at newlines gives at least one line, none containing a newline. |
| `PyText.JoinSplit` | skills/code-review/codex-reviewer/scripts/codex_review.py:101 | Joining the lines of a split gives back the text: the split loses nothing. |
| `PyText.SplitJoin` | skills/code-review/codex-reviewer/scripts/codex_review.py:220 | Splitting a newline-join of newline-free lines gives back the lines. |
| `PyText.DecimalString` | skills/code-review/codex-reviewer/scripts/codex_review.py:220 | The rendering of a number is non-empty, all digits, with no leading zero. |
| `PyText.DecimalRoundTrip` | skills/code-review/codex-reviewer/scripts/codex_review.py:220 | The rendering reads back as the number, so distinct numbers render differently. |
| `CodexReview.BuildCommand` | skills/code-review/codex-reviewer/scripts/codex_review.py:41-51 | The vector starts `codex exec --model M --sandbox S --config reasoning_effort=E`, has `--json` next iff JSONL output is on, ends with the prompt, has length 10 or 9, and the settings read back from it are the inputs. |
| `CodexReview.DecodeLinesBound` | skills/code-review/codex-reviewer/scripts/codex_review.py:101-106 | There are at most as many events as non-empty lines. |
| `CodexReview.DecodeLinesAll` | skills/code-review/codex-reviewer/scripts/codex_review.py:101-106 | When every non-empty line decodes, there is exactly one event per non-empty line. |
| `CodexReview.DecodeLinesAppend` | skills/code-review/codex-reviewer/scripts/codex_review.py:101-106 | Decoding goes line by line in input order: the events of two blocks of lines are the first block's followed by the second's. |
| `CodexReview.DecodeLinesMembers` | skills/code-review/codex-reviewer/scripts/codex_review.py:101-106 | A value is an event iff some non-empty line decodes to it; empty and undecodable lines contribute nothing. |
| `CodexReview.BlankTextNoEvents` | skills/code-review/codex-reviewer/scripts/codex_review.py:101-106 | A whitespace-only output gives no events. |
| `CodexReview.ParseJsonl` | skills/code-review/codex-reviewer/scripts/codex_review.py:98-107 | The loop returns the decoded non-empty lines of the stripped text, in order. |
| `CodexReview.WellFormedScannable` | skills/code-review/codex-reviewer/scripts/codex_review.py:111-114 | Events that are all dicts, with dict items on completed events, never make the scan raise. |
| `CodexReview.SummaryIsLastMessage` | skills/code-review/codex-reviewer/scripts/codex_review.py:111-115 | The summary is the text of the last `item.completed`/`agent_message` event; when that event has no text it is `None`, with no fallback to an earlier message. |
| `CodexReview.SummaryWithoutMessage` | skills/code-review/codex-reviewer/scripts/codex_review.py:111-116 | Without any agent message the summary is `None`. |
| `CodexReview.ExtractSummary` | skills/code-review/codex-reviewer/scripts/codex_review.py:109-116 | The reversed loop with early return finds `SummaryOf` the events. |
| `CodexReview.RunReview` | skills/code-review/codex-reviewer/scripts/codex_review.py:41-77 | The command line reads back as its inputs, and the response satisfies `ResponseOf`: `success` iff the return code is 0; `error` is stderr exactly when it is non-zero and `None` otherwise; `output` is stdout; `events` and `summary` are present iff JSONL output is on, and are the parsed events and their summary. |
| `CodexReview.Effort` | skills/code-review/codex-reviewer/scripts/codex_review.py:120-227 | Security, architecture and diff reviews use `high` effort; performance, quality and focused reviews use `medium`. |
| `CodexReview.RunPredefined` | skills/code-review/codex-reviewer/scripts/codex_review.py:120-227 | A predefined review runs in the `read-only` sandbox at its own effort with its prompt, and returns run_review's response in full (`ResponseOf`): success iff the process returned 0, stderr as the error otherwise, stdout as output, and the parsed events and summary iff JSONL output is on. |
| `CodexReview.FocusAreaLines` | skills/code-review/codex-reviewer/scripts/codex_review.py:218-220 | The focus block has one line per area, line k being `"{k+1}. "` and area k, and is empty for no areas. |
| `CodexReview.Dispatch` | skills/code-review/codex-reviewer/scripts/codex_review.py:232-263 | Fewer than two arguments or an unknown type dispatch nothing. `security`, `performance` and `quality` give that review of the target, the second argument. An architecture review of the target has the third argument as context, defaulting to `""`. A diff review's head is the target and its base the third argument, defaulting to `main`. Each type gets its effort. |
| `CodexReview.MainExitCode` | skills/code-review/codex-reviewer/scripts/codex_review.py:230-274 | main returns 0 or 1, and 0 exactly when the review type was dispatched and the review succeeded. |

## Left out

- File I/O is not modelled: `read_json`'s file reading and JSON decoding, `write_json`, `mkdir`, the home directory and the script location. Only the rule that a missing file reads as the default is kept. Key order and the `indent=2` formatting of the written file are not modelled either, because dicts are maps here.
- Python's crash paths are preconditions rather than modelled exceptions. These are: a non-dict Claude settings document, policy or policy section; a non-dict `permissions`; an unhashable entry in `allow` or `permissionsAllow`; and, only when trust is forced, a non-dict Gemini document or `mcpServers`. Without forced trust a Gemini document of any type is written back as read.
- ApplyPolicy.EnsureClaudePermissions: a `permissionsAllow` that is a string or dict would be iterated by character or by key in Python. The model requires a list.
- ApplyPolicy.EnsureClaudePermissions: an existing `allow` that is a string or dict raises in Python only when an item has to be appended, and otherwise is written back as it is. The model requires `allow` to be a list.
- ApplyPolicy.MergeAllow: Python's `True == 1` between a boolean and a number is not modelled; they are distinct values here. JSON numbers are reals, so `1 == 1.0` does hold.
- Aliasing is not modelled. The script mutates the settings dict through its nested `permissions` and `allow` objects; the model rebuilds the document by value.
- The `codex` process is not modelled: the `subprocess.run` call, its 300-second timeout, and the timeout, CLI-not-found and generic-exception responses. Its completed result is a parameter. Writing stdout to `output_file` is not modelled either.
- CodexReview.RunReview: an event that is not a dict, or a completed event whose `item` is not a dict, makes Python raise inside the `try`. The response would then be the generic "Unexpected error" one. The model excludes this by a precondition (`Scannable`).
- JSON decoding is an abstract function, and Python's universal-newline translation of the process output is not modelled.
- The prose of the predefined prompts is the parameter `render`. Only the numbering of the focus areas is modelled.
- Console output of both `main` functions is not modelled: the usage text, the review result or summary, the error message and the list of updated paths.
