# GitHub issue collector: verified model of its collection and digest logic

The repository is a small Streamlit script (`index.py`). It fetches the open
issues of a GitHub repository page by page. It flattens each issue into a
`{title, body, url}` record, renders the records as a numbered Markdown
digest, and puts a fixed instruction prompt in front of it, to be pasted into
an AI chat tool. This project models the two pieces of logic in it:

- **Issue collection** (`fetch_issues`), module `Fetcher` in `fetcher.dfy`.
  It is imperative, like the source, so `FetchIssues` is a method. It has
  the page loop, the inner loop that appends records, and the early
  `return` on a failed request. It is proved equal to the reference function
  `Run`, which describes the state of a run after pages `1..n`. The
  properties are lemmas about `Run`: the result when all pages succeed, the
  result when one fails, which requests are sent, and when a failure is
  reported. The per-record normaliser `Normalize` is a pure function.
- **Digest assembly** (the script code after collection), module `Digest`
  in `digest.dfy`. It is pure: `Section`, `Sections`, `MarkdownText`,
  `Prompt` and `Combined` are functions. Lemmas give the layout of a
  section and of the combined text.

Supporting modules: `Strings` (`strings.dfy`) models the Python built-ins
used: `s[:n]`, `str(i)` for a positive integer, and `sep.join(parts)`.
`Seqs` (`seqs.dfy`) holds flattening, and `Wrappers` (`wrappers.dfy`) holds
`Option`.

How the outside world is modelled:

- The HTTP layer is the parameter `respond: Request -> PageResult`. For every
  request sent, it gives `RequestFailed` or `Page(items)`. `RequestFailed`
  stands only for a `RequestException` raised by `requests.get` or
  `raise_for_status` inside the `try` (index.py:14-15). `Page(items)` is a
  reply that passed the status check and decoded into a list of issue
  objects.
- A `Request` holds the endpoint, the two query parameters `page` and
  `per_page`, and the header map. `FetchIssues` also returns the sequence
  of requests it sent, so the model can say which pages were requested.
- `st.error` at index.py:17 becomes the `failed` result.
- A decoded issue is a map from field names to `JsonText` (`Null` or
  `Text(s)`), so a key can be missing or hold `null`.
  `issue.get("title", "")` gives the default only for a missing key; for a
  stored `null` it gives `null`. So the record keeps `title` and `url` as
  `JsonText`. An f-string prints `null` as `None` (`Digest.Show`).
- The prompt's wording is the parameter `PromptTemplate(before, after)`
  around the interpolated `https://github.com/{repo}/issues`. Every property
  holds for every wording.

Points about what the code does:

- The code sends only `page` and `per_page`. It has no `state`, `sort` or
  `direction` parameters.
- The `Authorization` header is `token <token>`.
- There are no labels, types, comments, bot filtering or linked-development
  filter.
- One failed page request ends the whole run with an empty list, even when
  earlier pages succeeded.
- Sections are joined by a single `"\n"`. Each section already ends in a
  newline, so a blank line appears between sections.

## Model

| member | source | states |
|---|---|---|
| Strings.Take | index.py:22 | `s[:500]` is a prefix of `s`, at most 500 long, equal to `s` when `s` has at most 500 characters, and exactly 500 long otherwise |
| Strings.Decimal | index.py:43 | the label number is written as a non-empty string of decimal digits with no leading zero |
| Strings.ParseDecimal | index.py:43 | reading the numeral back gives the number |
| Strings.DecimalInjective | index.py:43 | different issue numbers get different numerals |
| Strings.DigitRun | index.py:43 | the run of leading digits is a prefix, is all digits, and ends at a non-digit or at the end |
| Strings.JoinLength | index.py:53 | `sep.join(parts)` has the parts' total length plus one separator between each neighbouring pair |
| Strings.JoinAt | index.py:53 | each part appears unchanged in the joined text at its offset |
| Strings.JoinNext | index.py:53 | the next part starts one separator after a part ends, the separator lies between them, and the last part ends the text |
| Fetcher.Headers | index.py:7-9 | the `Authorization` header is present exactly when the token is truthy, its value is `"token " + token`, and there is no other header |
| Fetcher.BodyText | index.py:22 | a missing or `null` body gives `""`; a text body is kept |
| Fetcher.Normalize | index.py:20-24 | a missing title or `html_url` becomes `""`, and a present one is kept as stored; a missing or `null` body becomes `""`; the body is a prefix of the source body of length at most 500; a short body is kept whole, and a longer one is cut to exactly 500 |
| Fetcher.NormalizePage | index.py:19-24 | one record per raw issue, in the page's order |
| Fetcher.NormalizePageAppend | index.py:19-24 | normalising the issues of two pages one after the other gives the concatenation of the two results |
| Fetcher.FetchIssues | index.py:5-25 | the loop, with its early return, ends in the state `Run` gives for pages `1..pages`; the returned list is `Fetched`; after a reported failure the list is empty |
| Fetcher.AbortedStays | index.py:16-18 | after a failed request a run stays abandoned, with no further request and no records |
| Fetcher.PageItems | index.py:10-19 | the raw issue lists of pages `1..n`, in page order |
| Fetcher.RunAllSucceed | index.py:10-24 | when every page succeeds, the records are the normalised issues of pages `1..n` in page order, each page keeping its own order, and their number is the sum of the page sizes |
| Fetcher.FetchedAllSucceed | index.py:10-25 | the same for the list `fetch_issues` returns, over pages `1..pages` |
| Fetcher.RunAnyFailure | index.py:13-18 | one failing page among `1..n` abandons the run, even when earlier pages succeeded |
| Fetcher.FetchedAnyFailure | index.py:13-18 | one failing page among `1..pages` makes `fetch_issues` return `[]` |
| Fetcher.RunRequests | index.py:10-18 | the requests sent are for pages 1, 2, … in increasing order, each with the same endpoint, `per_page` and headers; a run that continued sent exactly one request per page, all answered; an abandoned run stopped right after its first failed request |
| Fetcher.RunAbortedIff | index.py:13-18 | a failure is reported exactly when some page in `1..n` fails |
| Digest.LabelOfNumeral | index.py:43 | `## Issue ` followed by a numeral and then a non-digit is read as that numeral's number |
| Digest.SectionLabel | index.py:43 | section `i` is labelled `Issue i` |
| Digest.SectionTitle | index.py:43-44 | the section opens with its head, the `## Issue {i}` line followed by the `**Title**: ` lead, and the title comes right after it |
| Digest.SectionBody | index.py:44-47 | after the title comes exactly `"\n\n**Body**:\n"` (the blank line and the body heading), then the body |
| Digest.SectionUrl | index.py:47-50 | after the body comes exactly `"\n\n**URL**: "` (the blank line and the url lead), then the url, and only the `---` line follows it |
| Digest.SectionEnd | index.py:50-51 | every section ends in a `---` line |
| Digest.SectionsNumbered | index.py:42-52 | one section per issue in input order; the k-th is built from the k-th issue and labelled with number k + 1 |
| Digest.PromptNamesRepo | index.py:55-58 | the prompt contains `https://github.com/` + repo + `/issues` |
| Digest.CombinedLayout | index.py:77 | the combined text is the prompt, then `"\n\n"`, then the joined sections |
| Digest.CombinedNamesRepo | index.py:58-77 | the combined text contains the repository's issue-list url |
| Digest.CombinedEmpty | index.py:53-77 | with no issues the combined text is the prompt followed by `"\n\n"` |
| Digest.CombinedSection | index.py:42-77 | every issue's section appears whole in the combined text, at its start position |
| Digest.CombinedOrder | index.py:51-77 | section k is followed by a newline and then by section k + 1; the last section ends the text |
| Digest.CombinedLength | index.py:53-77 | the combined text is exactly as long as the prompt, the blank line, the sections and one newline between each pair |
| Digest.CollectDigest | index.py:35-77 | the script runs collection with 15 issues per page and no token, produces no digest when nothing was collected, and otherwise produces the combined text of the collected records; a failure is reported exactly when some page fails, and then there is no digest |
| Fetcher.Get | index.py:21-23 | `dict.get(key, default)`: the stored value, `null` included, when the key is present, and otherwise the default |
| Fetcher.Truthy | index.py:8 | Python's truth test of the token: present and non-empty |
| Fetcher.IssuesUrl | index.py:11 | the endpoint `https://api.github.com/repos/{repo}/issues` |
| Fetcher.PageRequest | index.py:10-14 | the request for one page: that endpoint, `page` and `per_page` as the only query parameters, and the headers built from the token |
| Fetcher.Run | index.py:10-25 | the reference for the page loop: after pages `1..n` a run is either still collecting, holding its records and the requests it sent, or abandoned after its first failed request |
| Fetcher.Fetched | index.py:5-25 | the list `fetch_issues` returns: the records of a run over pages `1..pages`, or `[]` when the run was abandoned |
| Fetcher.FetchedBodies | index.py:19-25 | whatever the pages return, every returned record's body has at most 500 characters and is a prefix of the source body of the raw issue at the same position |
| Strings.Join | index.py:53 | `sep.join(parts)`: the parts in order, with the separator between neighbours only |
| Digest.Show | index.py:44-49 | how the f-string renders a field: text as itself, `null` as `None` |
| Digest.Section | index.py:43-51 | the f-string: `## Issue {i}`, then `**Title**: {title}`, a blank line, `**Body**:` and the body, a blank line, `**URL**: {url}`, and a `---` line, each line ending in a newline |
| Digest.Sections | index.py:42-52 | the list comprehension over `enumerate(issues, 1)`: one section per record, so as many sections as records |
| Digest.MarkdownText | index.py:53 | `"\n".join(markdown_list)` |
| Digest.Prompt | index.py:55-75 | the prompt template with `https://github.com/{repo}/issues` interpolated; the wording is the template's fixed text |
| Digest.Combined | index.py:77 | `prompt + "\n\n" + markdown_text` |
| Fetcher.PageCount | index.py:10 | the number of pages `range(1, pages + 1)` visits: `pages`, or none when `pages` is zero or negative |
| Digest.RepoIssuesUrl | index.py:58 | the interpolation `https://github.com/{repo_input}/issues` |
| Digest.SectionHead | index.py:43-44 | the `## Issue {i}` line followed by the `**Title**: ` lead |

## Left out

- Streamlit UI (index.py:27-40, 79-85): the title, input widgets, slider, button, spinner, and the warning, info and success messages. The slider's bounds of 1 to 10 are not imposed on `pages`. Negative or zero `pages` gives no request, as `range` does.
- The network: `requests.get`, the 10-second timeout and `raise_for_status` (index.py:14-15) are foreign calls. The model replaces them with the `respond` parameter.
- A reply whose decoding fails at index.py:19 is not modelled, nor one that decodes to something other than a list of objects. `res.json()` is outside the `try`, so such a reply raises out of `fetch_issues`, and neither `st.error` nor `return []` is reached. In the model every reply that passes the status check is a list of issue objects. The text of the error message in `st.error` is not modelled; only the fact that a failure is reported.
- The JSON values in the model are text or `null`. A number or object where text is expected (which would make `[:500]` raise or render differently) is not modelled.
- The Korean wording of the prompt (index.py:55-75) is the parameter `PromptTemplate`. Only the interpolation of the repository url is modelled.
- Embedding the text in an HTML `<textarea>` and the clipboard script (index.py:80-83) are browser behaviour.
- Characters are Dafny `char`s. Python slices by code point, and no distinction between the two is modelled.
- The default arguments `pages=2` and `per_page=15` of `fetch_issues` are not modelled. `FetchIssues` takes every argument explicitly; only `CollectDigest` fixes `per_page` to 15 and the token to none, as the script's call does.
