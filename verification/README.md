# social-cross-posting, modelled in Dafny

This project models the cross-posting core of *social-cross-posting*. That
core sends one message (text, an image, or a link with a preview card) to
Bluesky and Mastodon, and collects one result per platform. Four source files
are modelled:

- `send_with_card.py`: builds a Bluesky link card from a page's Open Graph
  `<meta>` tags. It uses two regular expressions, which are modelled with
  Python `re` semantics:
  - the lazy `findall` scan;
  - the greedy, backtracking `content="…"` match.
- `social_media.py`: `SocialMediaPoster`, a class holding a dict of provider
  clients built from environment variables. It also has a JPEG re-encoding
  loop and three fan-out operations (`post_text`, `post_image`, `post_link`).
- `social_media_pythonista.py`: the Pythonista variant. It reads
  credentials from `.env` lines and posts with raw HTTP requests.
- `app.py`: the Flask `/post` handler. It validates the form, picks the
  operation and splits the results into successes and error lines.

Everything outside the process is a parameter of the model. That covers the
HTTP and SDK calls, image decoding and encoding, the page parser, the MIME
guess and the file system. Each such call is given as an `Outcome`: either
its value, or the `str(e)` of the exception it raised.

A result dict is an insertion-ordered `Dict` (`fan_out.dfy`). Each posting
loop is proved, by loop invariant, to equal a fold of one step per requested
name. That fold (`FanOut.Fill` and `FanOut.Trace`) has its own lemmas:
- the last write wins;
- key sets;
- failure isolation between platforms;
- the order of calls.

Files:
- `outcomes.dfy`: shared values.
- `text.dfy`: `str.strip`, `find` and `in`.
- `fan_out.dfy`: the dict and the fan-out fold.
- `og_tags.dfy`: `send_with_card.py`.
- `social_media.dfy`: `social_media.py`.
- `pythonista.dfy`: `social_media_pythonista.py`.
- `app.dfy`: `app.py`.

Behaviour of the code worth knowing:
- A platform that is requested but has no client records the Python
  `KeyError` text `{'error': "'bluesky'"}`. There is no separate
  "unavailable" kind.
- Names other than `bluesky` and `mastodon` are silently skipped.
- `_resize_image` can return more than the size limit. Its down-scaling
  branch is unreachable.
- In the Pythonista variant, missing credentials only produce a printed
  report.

## Model

| member | source | states |
|---|---|---|
| Text.Strip | app.py:23 | `strip()` returns the input without its leading and trailing whitespace (Python's `isspace` set); the result neither starts nor ends with whitespace |
| Text.StripEmpty | app.py:23-25 | the stripped text is empty exactly when the input is all whitespace, which is when the handler rejects the post |
| Text.StripKeeps | social_media_pythonista.py:21-22 | a non-whitespace character (the `=`) survives `strip()`, so the split that follows always finds it |
| FanOut.PutLookup | social_media.py:127 | `results[k] = v`: `k` then maps to `v`, other keys keep their values, a new key goes last, an existing key keeps its place, and keys stay distinct |
| FanOut.FillLookup | social_media.py:124-133 | the loop's dict has distinct keys, and the value under a name is the entry of the last iteration for that name that stored one |
| FanOut.FillKeys | social_media.py:124-133 | a name is a key of the result exactly when some iteration for it stored an entry |
| FanOut.KeysAreRequestedKnownNames | social_media.py:124-131 | when only known names store entries, the result's keys are exactly the requested known names |
| FanOut.FillIsolation | social_media.py:125-131 | changing what happens in one iteration (an exception instead of a response) changes no other name's entry |
| FanOut.TraceSplit | social_media.py:124-131 | each iteration's calls come after all earlier iterations' calls and before all later ones; a failure never skips a later platform |
| FanOut.FillUniform | social_media.py:130-131 | when every iteration for a name stores the same entry, the result holds that entry |
| OgTags.TagCloseExact | send_with_card.py:8 | the lazy `.*?>` ends at the first `>`, provided no newline comes before it; otherwise there is no match |
| OgTags.MatchAtExact | send_with_card.py:8 | a match starting at `i` ends at `e` exactly when `s[i..e]` starts with `<meta property="og:`, ends with `>`, and has no `>` or newline in between |
| OgTags.Scan | send_with_card.py:45 | defines the `findall` scan: try a match at each index in turn, and after a match carry on at its end |
| OgTags.ScanSpans | send_with_card.py:45 | `findall` returns spans in document order that do not overlap, and each span is a match |
| OgTags.ScanComplete | send_with_card.py:45 | no match is missed: every index where a match could start lies inside a reported match |
| OgTags.TagsAreOgTags | send_with_card.py:45 | every string `findall` returns is a complete Open Graph meta tag |
| OgTags.Tags | send_with_card.py:45 | defines `_META_PATTERN.findall(text)`: the substrings under the scan's spans, in document order |
| OgTags.TagsConcat | send_with_card.py:45 | `findall` over a text whose every `<meta property="og:` closes (or breaks at a newline) inside it, followed by text that starts with `<`, is the first part's list followed by the second part's |
| OgTags.FindTag | send_with_card.py:17-22 | returns the first tag containing the search string as a substring, and None exactly when no tag contains it |
| OgTags.TagContent | send_with_card.py:25-30 | defines `_get_tag_content`: for a tag that starts with `<meta`, the backtracking `content="…"` match from the first `>` leftwards; otherwise None |
| OgTags.ValueAtExact | send_with_card.py:9 | with `[^>]+` ending at `j`, the group is `v` exactly when `content="v"` stands at `j` with `v` non-empty and quote-free |
| OgTags.LastContentExact | send_with_card.py:9 | greedy backtracking yields the value of the rightmost `content="v"` attribute that starts before the tag's first `>` (the quoted value itself may run past that `>`) |
| OgTags.TagContentExact | send_with_card.py:25-30 | `_get_tag_content` gives `v` exactly when the tag starts with `<meta` and the rightmost `content="v"` attribute starting before the first `>` carries `v` |
| OgTags.OgValue | send_with_card.py:33-38 | defines `_get_og_tag_value`: the content of the first tag that mentions the name, None when there is none or it is empty |
| OgTags.FirstMentionDecides | send_with_card.py:33-38 | the first tag that mentions the name alone decides the value, even when later tags would hold content |
| OgTags.GetOgTags | send_with_card.py:41-51 | defines `get_og_tags` on the page text: image, title and description looked up in one `findall` list |
| OgTags.TagContentRoundTrip | send_with_card.py:25-30 | `<meta property="og:N" content="V">` reads back `V` when neither N nor V holds a quote or `>`, and V is non-empty |
| OgTags.FirstTag | send_with_card.py:45 | an Open Graph tag after a settled prefix comes right after the prefix's own tags in the `findall` list, whatever follows it |
| OgTags.PageRoundTrip | send_with_card.py:41-51 | a page whose first tag mentioning `og:N` is `<meta property="og:N" content="V">`, after a settled prefix, yields `V` for `og:N` |
| OgTags.TitleRoundTrip | send_with_card.py:48 | a page whose first tag mentioning `og:title` is an `og:title` tag reports that title |
| OgTags.ThreeTagRoundTrip | send_with_card.py:41-51 | a page with `og:title`, `og:description` and `og:image` tags in a row reads back all three, when no earlier tag mentions a later one's name |
| OgTags.ImageWidthShadowsImage | send_with_card.py:47 | because the lookup tests for a substring, an earlier `og:image:width` tag answers the `og:image` query ("640") |
| OgTags.PostCard | send_with_card.py:56-71 | a missing title or description raises the OGP error after the page fetch only; without an image the card has no thumbnail; with one, the download, the upload and the send happen in order, and each failure stops the sequence with its own error |
| OgTags.PostCardSendsPageValues | send_with_card.py:66-70 | the only post sent is the last call; it carries the page's title and description, the requested URL and the given text, and its outcome is the call's outcome |
| OgTags.SendRichPost | send_with_card.py:54-58 | the page fetch comes first; if it fails, that exception is the outcome and nothing else is called |
| SocialMedia.GetEnvVar | social_media.py:47-52 | returns the value exactly when the variable is set and non-empty; otherwise raises "Environment variable K is not set" |
| SocialMedia.InitialClients | social_media.py:54-75 | defines the clients dict `_initialize_clients` builds: Bluesky stored on creation and replaced after a successful login, Mastodon stored when both variables are set and the client is built |
| SocialMedia.InitialClientsKeys | social_media.py:54-75 | the bluesky entry exists whenever the client object could be built, even if the login failed; it is logged in exactly when both variables are set and the login succeeded; the mastodon entry needs both variables and a built client |
| SocialMedia.Poster.constructor | social_media.py:22-26 | the clients dict is the one `_initialize_clients` builds |
| SocialMedia.ResizeImage | social_media.py:88-115 | the loop returns the first encoding, from quality 95 down in steps of 5, that fits the limit, or the quality-5 encoding, after at most 19 encodings |
| SocialMedia.FirstFit | social_media.py:97-110 | defines the encoding the loop returns: the first, from the given quality down in steps of 5, that fits, or the one at quality 5 or below |
| SocialMedia.FirstFitChoice | social_media.py:97-110 | the result is the encoding at the highest quality in 95, 90, …, 5 that fits, or the quality-5 one; every higher quality was too large |
| SocialMedia.FirstFitFits | social_media.py:105-106 | if any tried quality fits the limit, so does the result |
| SocialMedia.FirstFitOverLimit | social_media.py:105-115 | if no quality fits, the quality-5 encoding is returned over the limit; the downscale branch never runs |
| SocialMedia.MimeType | social_media.py:150-152 | the guessed type is kept when it starts with `image/`; otherwise `image/jpeg` is used |
| SocialMedia.Poster.PostText | social_media.py:117-133 | the result dict and call sequence equal the fold of the per-name steps over the requested names (all client keys when none are given) |
| SocialMedia.Poster.PostImage | social_media.py:135-178 | if opening the image fails, the whole call raises with no calls; otherwise the result is the fold of the image steps over one shared re-encoding at 900 KiB and the guessed MIME type |
| SocialMedia.Poster.PostLink | social_media.py:180-220 | the result dict and calls equal the fold of the link steps |
| SocialMedia.PostTextKeys | social_media.py:124-131 | `post_text` has an entry exactly for each requested name that is `bluesky` or `mastodon` |
| SocialMedia.PostImageKeys | social_media.py:154-176 | the same key set for `post_image` |
| SocialMedia.PostLinkKeys | social_media.py:187-218 | the same key set for `post_link` |
| SocialMedia.PostTextMissingClient | social_media.py:126-131 | a requested known platform without a client records the KeyError entry `'name'` |
| SocialMedia.PostImageMissingClient | social_media.py:156-176 | the same for `post_image` |
| SocialMedia.PostLinkFetchesBeforeLookup | social_media.py:189-203 | for bluesky, the page and its image are fetched before the missing client is noticed |
| SocialMedia.PostLinkMissingClient | social_media.py:215-218 | a requested platform without a client gets an `'error'` entry from `post_link`: the KeyError for Mastodon, and for Bluesky the page fetch error, the image fetch error or the KeyError of one of its iterations |
| SocialMedia.PostTextIsolation | social_media.py:125-131 | one platform's provider answer never changes another platform's entry |
| SocialMedia.PostImageIsolation | social_media.py:155-176 | the same for `post_image` |
| SocialMedia.PostLinkIsolation | social_media.py:188-218 | the same for `post_link`, including page and image fetches |
| SocialMedia.PostImageSharesBytes | social_media.py:147-168 | every Bluesky image and every Mastodon upload carries the same re-encoded bytes, and every upload the same MIME type |
| SocialMedia.PostImageStatusNamesUpload | social_media.py:163-174 | the Mastodon status follows the upload and names its `id`; a failed upload or a missing `id` stops the iteration |
| Pythonista.EqualsAt | social_media_pythonista.py:22 | the split point is the first `=` of the stripped line, and it always exists |
| Pythonista.KeyOf | social_media_pythonista.py:22 | defines the key: the stripped line before its first `=` |
| Pythonista.ValueOf | social_media_pythonista.py:22 | defines the value: the stripped line after its first `=` |
| Pythonista.SplitRoundTrip | social_media_pythonista.py:22 | key, `=` and value rebuild the stripped line; the key holds no `=` |
| Pythonista.ApplyLastWins | social_media_pythonista.py:20-23 | a key is present exactly when some line sets it, with the value of the last line that does |
| Pythonista.Credentials | social_media_pythonista.py:17-26 | defines the dict `_load_credentials` returns: the lines' assignments applied in file order |
| Pythonista.CredentialsLastWins | social_media_pythonista.py:15-26 | the loaded dict holds a key exactly when a line with `=` names it; its value comes from the last such line |
| Pythonista.LoadCredentials | social_media_pythonista.py:15-26 | the loop builds exactly the dict that the ordered line assignments give |
| Pythonista.Missing | social_media_pythonista.py:37-40 | defines the report: `description (KEY)` for each required key absent from the credentials, in the required dict's order |
| Pythonista.MissingExact | social_media_pythonista.py:37-42 | the report is empty exactly when every required key is present; each line is `description (KEY)` for an absent key |
| Pythonista.ValidateCredentials | social_media_pythonista.py:28-45 | the report lists the absent required keys in dict order |
| Pythonista.Poster.constructor | social_media_pythonista.py:10-13 | the credentials are those loaded from the lines |
| Pythonista.BlueskyAuth | social_media_pythonista.py:66-71 | the password is read before the handle; a missing one raises the KeyError of the first key absent in that order |
| Pythonista.MastodonAuth | social_media_pythonista.py:83-85 | the instance URL is read before the token, with the same KeyError order |
| Pythonista.Poster.PostText | social_media_pythonista.py:54-98 | the result and the requests equal the fold of the request steps over the names (both platforms by default) |
| Pythonista.Poster.PostImage | social_media_pythonista.py:100-168 | an image failure leaves only `{'error': msg}` with no request; otherwise the fold of the image steps |
| Pythonista.Poster.PostLink | social_media_pythonista.py:170-240 | a page or image failure leaves only `{'error': msg}` after the fetches; otherwise the fetches, then the fold of the link steps |
| Pythonista.PostTextKeys | social_media_pythonista.py:61-96 | one entry for each requested known name and nothing else |
| Pythonista.PostImageKeys | social_media_pythonista.py:112-163 | the same key set, and the per-platform loop never stores `'error'` as a key |
| Pythonista.PostLinkKeys | social_media_pythonista.py:191-235 | the same for `post_link` |
| Pythonista.PostTextMissingCredential | social_media_pythonista.py:62-96 | a missing credential records the KeyError of the first key read, and no request is sent |
| Pythonista.PostTextIsolation | social_media_pythonista.py:61-96 | one platform's answer never changes another's entry |
| Pythonista.PostLinkBlueskyRequests | social_media_pythonista.py:193-218 | every Bluesky record goes to `createRecord` with the password as bearer, the handle as repo, the fixed `createdAt` and the page's card |
| Pythonista.PostImageSharesImage | social_media_pythonista.py:110-149 | every upload and every Bluesky image embed carries the same base64 image |
| App.SummaryPartition | app.py:66-73 | successes and error lines partition the results: a platform is a success exactly when it has no `'error'`, and the error lines are exactly the `platform: message` lines of the failed results |
| App.Successes | app.py:67-73 | defines the success list: the platforms whose result has no `'error'` key, in dict order |
| App.Errors | app.py:67-73 | defines the error lines: `platform: message` for each result with an `'error'` key, in dict order |
| App.Summarize | app.py:66-73 | the loop produces exactly the success list and error lines, in dict order |
| App.Post | app.py:20-81 | text is checked before platforms; an image field decides alone (empty filename: nothing posted); then a non-empty link; then text. Save and open failures become `{'error': …}`; otherwise the response summarises the chosen operation's results |
| App.TextPostReportsMissingClient | app.py:59-73 | end to end: a selected platform without a client appears in `errors` as `name: 'name'` and not in `success` |

## Left out

- HTTP, the Bluesky and Mastodon SDKs, and `requests`/`httpx` are parameters. Each call's outcome (response JSON as string fields, or exception text) is given.
- Network failures, rate limits and retries are therefore not modelled separately.
- BeautifulSoup parsing in both `post_link` variants is one given `Preview` outcome per fetch. Its own tag matching (exact `property` equality) is not modelled.
- PIL is left out. Opening, RGB conversion, JPEG encoding and `_get_image_size` are one given `Picture`: size plus an encoder per quality. The source opens the file twice; the model opens it once.
- Base64 encoding in the Pythonista variant is part of the given image outcome.
- `mimetypes.guess_type` is a parameter.
- SocialMedia.ResizeImage compares byte length with `1024 * max_size_kb` instead of Python's float `size_kb`. The two agree for files below 2^53 bytes.
- JSON values are flattened to strings. A Mastodon media `id` is treated as a string.
- Printing and logging are left out: status lines, `print_setup_guide`, the platform summary. The Pythonista validation report is returned, not printed.
- `login` and `main` in `send_with_card.py` are command-line plumbing and are not modelled.
- Flask is left out: routing, `index`, `render_template`, `jsonify`.
- File-system details of the upload are left out: `secure_filename`, the upload folder, `os.remove`. Saving is a given outcome; a file left behind after a failed post is not tracked.
- The `.env` loader receives the lines it read. A read error is modelled by passing only the lines before it.
- Process environment and `load_dotenv` are a map parameter.
- `social_media_ui.py`, `social_media_ui_pythonista.py`, the tests and `requirements.py` are not part of this model.
- OgTags.SendRichPost: after the page fetch its contract only hands over to `OgTags.PostCard`, which carries the properties.
