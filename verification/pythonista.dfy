/** The Pythonista variant of `SocialMediaPoster` (social_media_pythonista.py):
    credentials come from the lines of a `.env` file, and every post is a raw
    HTTP request built from those credentials. The outcome of each request
    (`requests.post` followed by `response.json()`) is given as
    `reply(i, n)`: the `n`-th request of the iteration for the `i`-th
    requested platform. */
module Pythonista {
  import opened Outcomes
  import opened Text
  import opened FanOut

  const BLUESKY := "bluesky"
  const MASTODON := "mastodon"
  const KNOWN: set<string> := {BLUESKY, MASTODON}

  /** The platforms posted to when none are named. */
  const DEFAULT_PLATFORMS: seq<string> := [BLUESKY, MASTODON]

  const BLUESKY_HANDLE := "BLUESKY_HANDLE"
  const BLUESKY_PASSWORD := "BLUESKY_PASSWORD"
  const MASTODON_ACCESS_TOKEN := "MASTODON_ACCESS_TOKEN"
  const MASTODON_API_BASE_URL := "MASTODON_API_BASE_URL"

  const CREATE_RECORD := "https://bsky.social/xrpc/com.atproto.repo.createRecord"
  /** The fixed creation time written into every Bluesky record. */
  const CREATED_AT := "2024-03-30T00:00:00.000Z"
  const JSON := "application/json"
  const MULTIPART := "multipart/form-data"

  // ---------------------------------------------------------------------------
  // _load_credentials

  /** Where `line.strip().split('=', 1)` splits: the first `=` of the stripped
      line. The `=` found in the raw line is not whitespace, so it survives
      the strip and the unpacking into key and value cannot fail. */
  function EqualsAt(line: string): (r: nat)
    requires '=' in line
    ensures r < |Strip(line)| && Strip(line)[r] == '='
    ensures forall k :: 0 <= k < r ==> Strip(line)[k] != '='
  {
    StripKeeps(line, '=');
    IndexFrom(Strip(line), '=', 0)
  }

  /** The key of a credential line: the stripped line up to its first `=`. */
  function KeyOf(line: string): string
    requires '=' in line
  {
    Strip(line)[..EqualsAt(line)]
  }

  /** The value of a credential line: everything after the first `=`, further
      `=` signs included. */
  function ValueOf(line: string): string
    requires '=' in line
  {
    Strip(line)[EqualsAt(line) + 1..]
  }

  /** The split loses nothing: key, `=` and value give back the stripped line,
      and the key holds no `=`. */
  lemma SplitRoundTrip(line: string)
    requires '=' in line
    ensures KeyOf(line) + "=" + ValueOf(line) == Strip(line)
    ensures '=' !in KeyOf(line)
  {
    var s := Strip(line);
    var e := EqualsAt(line);
    assert s == s[..e] + [s[e]] + s[e + 1..];
  }

  /** The assignment a line makes, if it holds `=`. */
  function Assign(line: string): Option<(string, string)> {
    if '=' in line then Some((KeyOf(line), ValueOf(line))) else None
  }

  /** The assignment `a` sets key `k`. */
  predicate Sets(a: Option<(string, string)>, k: string) {
    a.Some? && a.value.0 == k
  }

  /** The dict after applying the assignments in order; a later assignment
      to a key replaces an earlier one. */
  function Apply(assigns: seq<Option<(string, string)>>): map<string, string> {
    if assigns == [] then map[]
    else
      var m := Apply(assigns[..|assigns| - 1]);
      match assigns[|assigns| - 1]
      case Some((key, value)) => m[key := value]
      case None => m
  }

  /** A key is present exactly when some assignment sets it, and its value
      is that of the last assignment that does. */
  lemma {:induction false} ApplyLastWins(assigns: seq<Option<(string, string)>>, k: string)
    ensures k in Apply(assigns) <==> exists i :: 0 <= i < |assigns| && Sets(assigns[i], k)
    ensures k in Apply(assigns) ==>
              exists i :: 0 <= i < |assigns| && Sets(assigns[i], k) && Apply(assigns)[k] == assigns[i].value.1
                          && forall j :: i < j < |assigns| ==> !Sets(assigns[j], k)
  {
    if assigns != [] {
      var n := |assigns| - 1;
      var init := assigns[..n];
      ApplyLastWins(init, k);
      if !Sets(assigns[n], k) {
        if k in Apply(init) {
          var i :| 0 <= i < |init| && Sets(init[i], k) && Apply(init)[k] == init[i].value.1
                   && forall j :: i < j < |init| ==> !Sets(init[j], k);
          assert assigns[i] == init[i];
          assert forall j :: i < j < n ==> assigns[j] == init[j];
        }
        if exists i :: 0 <= i < |assigns| && Sets(assigns[i], k) {
          var i :| 0 <= i < |assigns| && Sets(assigns[i], k);
          assert init[i] == assigns[i];
        }
      }
    }
  }

  /** The assignments of the lines, in file order. */
  function Assignments(lines: seq<string>): seq<Option<(string, string)>> {
    seq(|lines|, i requires 0 <= i < |lines| => Assign(lines[i]))
  }

  /** The credentials dict after reading `lines` in order. A read error that
      ends the loop early is modelled by passing only the lines read before
      it (an unreadable file: no lines); the partial dict is kept. */
  function Credentials(lines: seq<string>): map<string, string> {
    Apply(Assignments(lines))
  }

  /** A key is present exactly when some line assigns it, and its value
      comes from the last line that does. */
  lemma CredentialsLastWins(lines: seq<string>, k: string)
    ensures k in Credentials(lines) <==> exists i :: 0 <= i < |lines| && Sets(Assign(lines[i]), k)
    ensures k in Credentials(lines) ==>
              exists i :: 0 <= i < |lines| && '=' in lines[i] && KeyOf(lines[i]) == k
                          && Credentials(lines)[k] == ValueOf(lines[i])
                          && forall j :: i < j < |lines| ==> !Sets(Assign(lines[j]), k)
  {
    var assigns := Assignments(lines);
    assert |assigns| == |lines| && forall i :: 0 <= i < |lines| ==> assigns[i] == Assign(lines[i]);
    ApplyLastWins(assigns, k);
    if k in Credentials(lines) {
      var i :| 0 <= i < |assigns| && Sets(assigns[i], k) && Apply(assigns)[k] == assigns[i].value.1
               && forall j :: i < j < |assigns| ==> !Sets(assigns[j], k);
      assert '=' in lines[i];
    }
  }

  /** `_load_credentials`: every line holding `=` adds or replaces one key. */
  method LoadCredentials(lines: seq<string>) returns (credentials: map<string, string>)
    ensures credentials == Credentials(lines)
  {
    ghost var assigns := Assignments(lines);
    credentials := map[];
    for i := 0 to |lines|
      invariant credentials == Apply(assigns[..i])
    {
      var line := lines[i];
      if '=' in line {
        var key, value := KeyOf(line), ValueOf(line);
        credentials := credentials[key := value];
      }
      assert assigns[..i + 1][..i] == assigns[..i];
    }
    assert assigns[..|lines|] == assigns;
  }

  // ---------------------------------------------------------------------------
  // _validate_credentials

  /** The required keys with their descriptions, in dict order. */
  const REQUIRED: seq<(string, string)> := [
    (BLUESKY_HANDLE, "Bluesky handle"),
    (BLUESKY_PASSWORD, "Bluesky password"),
    (MASTODON_ACCESS_TOKEN, "Mastodon access token"),
    (MASTODON_API_BASE_URL, "Mastodon instance URL")
  ]

  /** The warning line for one missing key: `description (KEY)`. */
  function Warning(entry: (string, string)): string {
    entry.1 + " (" + entry.0 + ")"
  }

  /** The warnings for the required keys absent from `credentials`, in order. */
  function Missing(required: seq<(string, string)>, credentials: map<string, string>): seq<string> {
    if required == [] then []
    else
      var last := required[|required| - 1];
      Missing(required[..|required| - 1], credentials) + if last.0 in credentials then [] else [Warning(last)]
  }

  /** The warnings are exactly those of the absent keys, in the order of the
      required list; none means every required key is present. */
  lemma {:induction false} MissingExact(required: seq<(string, string)>, credentials: map<string, string>)
    ensures Missing(required, credentials) == [] <==> forall i :: 0 <= i < |required| ==> required[i].0 in credentials
    ensures forall w :: w in Missing(required, credentials) <==>
              exists i :: 0 <= i < |required| && required[i].0 !in credentials && w == Warning(required[i])
  {
    if required != [] {
      var init := required[..|required| - 1];
      MissingExact(init, credentials);
      forall w ensures w in Missing(required, credentials) <==>
                 exists i :: 0 <= i < |required| && required[i].0 !in credentials && w == Warning(required[i])
      {
        if w in Missing(init, credentials) {
          var i :| 0 <= i < |init| && init[i].0 !in credentials && w == Warning(init[i]);
          assert required[i] == init[i];
        }
        if exists i :: 0 <= i < |required| && required[i].0 !in credentials && w == Warning(required[i]) {
          var i :| 0 <= i < |required| && required[i].0 !in credentials && w == Warning(required[i]);
          if i < |init| {
            assert init[i] == required[i];
          }
        }
      }
      if forall i :: 0 <= i < |init| ==> init[i].0 in credentials {
        assert forall i :: 0 <= i < |required| - 1 ==> required[i] == init[i];
      }
    }
  }

  /** `_validate_credentials`: the lines it prints under "Missing required
      credentials:". It changes nothing; the poster is built either way. */
  method ValidateCredentials(credentials: map<string, string>) returns (missing: seq<string>)
    ensures missing == Missing(REQUIRED, credentials)
  {
    missing := [];
    for i := 0 to |REQUIRED|
      invariant missing == Missing(REQUIRED[..i], credentials)
    {
      var (key, description) := REQUIRED[i];
      if key !in credentials {
        missing := missing + [description + " (" + key + ")"];
      }
      assert REQUIRED[..i + 1][..i] == REQUIRED[..i];
    }
    assert REQUIRED[..|REQUIRED|] == REQUIRED;
  }

  // ---------------------------------------------------------------------------
  // Requests

  /** The `embed` of a Bluesky record. */
  datatype Embed =
    | Images(alt: string, image: string)
    | External(uri: string, title: string, description: string, thumb: string)

  /** The JSON or form body of a request. */
  datatype Body =
    | PostRecord(repo: string, text: string, embed: Option<Embed>, createdAt: string)
    | Status(status: string, mediaIds: Option<seq<string>>)
    | Upload(fileName: string, data: string, mime: string)

  /** The outside calls, in order: POST requests (URL, bearer token, content
      type, body) and the page and image downloads of `post_link`. */
  datatype Call =
    | Send(url: string, bearer: string, contentType: string, body: Body)
    | FetchPage(url: string)
    | FetchImage(url: string)

  /** What a post stores under a platform (a JSON object) or under `'error'`
      when the whole call failed (a message). */
  datatype Value = Json(fields: Fields) | Message(text: string)

  /** The Bluesky password (the bearer token) and handle, read in the order
      the request is built: the password first. */
  function BlueskyAuth(credentials: map<string, string>): (r: Outcome<(string, string)>)
    ensures r.Ok? <==> BLUESKY_PASSWORD in credentials && BLUESKY_HANDLE in credentials
    ensures r.Ok? ==> r.value == (credentials[BLUESKY_PASSWORD], credentials[BLUESKY_HANDLE])
    ensures r.Raise? ==>
              r.msg == KeyErrorText(if BLUESKY_PASSWORD !in credentials then BLUESKY_PASSWORD else BLUESKY_HANDLE)
  {
    if BLUESKY_PASSWORD !in credentials then Raise(KeyErrorText(BLUESKY_PASSWORD))
    else if BLUESKY_HANDLE !in credentials then Raise(KeyErrorText(BLUESKY_HANDLE))
    else Ok((credentials[BLUESKY_PASSWORD], credentials[BLUESKY_HANDLE]))
  }

  /** The Mastodon instance URL and access token, in the order the request
      is built: the URL first. */
  function MastodonAuth(credentials: map<string, string>): (r: Outcome<(string, string)>)
    ensures r.Ok? <==> MASTODON_API_BASE_URL in credentials && MASTODON_ACCESS_TOKEN in credentials
    ensures r.Ok? ==> r.value == (credentials[MASTODON_API_BASE_URL], credentials[MASTODON_ACCESS_TOKEN])
    ensures r.Raise? ==>
              r.msg == KeyErrorText(if MASTODON_API_BASE_URL !in credentials then MASTODON_API_BASE_URL
                                    else MASTODON_ACCESS_TOKEN)
  {
    if MASTODON_API_BASE_URL !in credentials then Raise(KeyErrorText(MASTODON_API_BASE_URL))
    else if MASTODON_ACCESS_TOKEN !in credentials then Raise(KeyErrorText(MASTODON_ACCESS_TOKEN))
    else Ok((credentials[MASTODON_API_BASE_URL], credentials[MASTODON_ACCESS_TOKEN]))
  }

  /** The credential lookup for platform `p`. */
  function Auth(credentials: map<string, string>, p: string): Outcome<(string, string)> {
    if p == BLUESKY then BlueskyAuth(credentials) else MastodonAuth(credentials)
  }

  /** `platforms`, or both platforms when it is None. */
  function Targets(platforms: Option<seq<string>>): seq<string> {
    if platforms.None? then DEFAULT_PLATFORMS else platforms.value
  }

  /** The Bluesky `createRecord` request for a record with `embed`. */
  function RecordCall(auth: (string, string), text: string, embed: Option<Embed>): Call {
    Send(CREATE_RECORD, auth.0, JSON, PostRecord(auth.1, text, embed, CREATED_AT))
  }

  /** One iteration of `post_text` for the requested name `p`. */
  function TextStep(credentials: map<string, string>, p: string, i: nat, text: string,
                    reply: (nat, nat) -> Outcome<Fields>): Step<Value, Call>
  {
    if p !in KNOWN then Step(p, None, [])
    else
      match Auth(credentials, p)
      case Raise(msg) => Step(p, Some(Json(ErrorEntry(msg))), [])
      case Ok(auth) =>
        var call :=
          if p == BLUESKY then RecordCall(auth, text, None)
          else Send(auth.0 + "/api/v1/statuses", auth.1, JSON, Status(text, None));
        Step(p, Some(Json(Record(reply(i, 0)))), [call])
  }

  function TextSteps(credentials: map<string, string>, names: seq<string>, text: string,
                     reply: (nat, nat) -> Outcome<Fields>): seq<Step<Value, Call>>
  {
    seq(|names|, i requires 0 <= i < |names| => TextStep(credentials, names[i], i, text, reply))
  }

  /** One iteration of `post_image` for `p`, with the base64 JPEG `image`.
      Mastodon gets an upload and then a status naming the upload's `id`,
      both sent with the multipart content type. */
  function ImageStep(credentials: map<string, string>, p: string, i: nat, text: string, image: string,
                     alt: string, reply: (nat, nat) -> Outcome<Fields>): Step<Value, Call>
  {
    if p !in KNOWN then Step(p, None, [])
    else
      match Auth(credentials, p)
      case Raise(msg) => Step(p, Some(Json(ErrorEntry(msg))), [])
      case Ok(auth) =>
        if p == BLUESKY then
          Step(p, Some(Json(Record(reply(i, 0)))), [RecordCall(auth, text, Some(Images(alt, image)))])
        else
          var upload := [Send(auth.0 + "/api/v1/media", auth.1, MULTIPART, Upload("image.jpg", image, "image/jpeg"))];
          match reply(i, 0)
          case Raise(msg) => Step(p, Some(Json(ErrorEntry(msg))), upload)
          case Ok(media) =>
            if "id" !in media then Step(p, Some(Json(ErrorEntry(KeyErrorText("id")))), upload)
            else
              var status := Send(auth.0 + "/api/v1/statuses", auth.1, MULTIPART, Status(text, Some([media["id"]])));
              Step(p, Some(Json(Record(reply(i, 1)))), upload + [status])
  }

  function ImageSteps(credentials: map<string, string>, names: seq<string>, text: string, image: string,
                      alt: string, reply: (nat, nat) -> Outcome<Fields>): seq<Step<Value, Call>>
  {
    seq(|names|, i requires 0 <= i < |names| => ImageStep(credentials, names[i], i, text, image, alt, reply))
  }

  /** One iteration of `post_link` for `p`, once the page values `pv` and the
      base64 thumbnail `thumb` are known. */
  function LinkStep(credentials: map<string, string>, p: string, i: nat, text: string, url: string,
                    pv: Preview, thumb: string, reply: (nat, nat) -> Outcome<Fields>): Step<Value, Call>
  {
    if p !in KNOWN then Step(p, None, [])
    else
      match Auth(credentials, p)
      case Raise(msg) => Step(p, Some(Json(ErrorEntry(msg))), [])
      case Ok(auth) =>
        var call :=
          if p == BLUESKY then RecordCall(auth, text, Some(External(url, pv.title, pv.description, thumb)))
          else Send(auth.0 + "/api/v1/statuses", auth.1, JSON, Status(text + "\n\n" + url, None));
        Step(p, Some(Json(Record(reply(i, 0)))), [call])
  }

  function LinkSteps(credentials: map<string, string>, names: seq<string>, text: string, url: string,
                     pv: Preview, thumb: string, reply: (nat, nat) -> Outcome<Fields>): seq<Step<Value, Call>>
  {
    seq(|names|, i requires 0 <= i < |names| => LinkStep(credentials, names[i], i, text, url, pv, thumb, reply))
  }

  /** The dict a whole-call failure returns: only `'error'`. */
  function WholeCallError(msg: string): Dict<Value> {
    [("error", Message(msg))]
  }

  /** `SocialMediaPoster` of the Pythonista variant. */
  class Poster {
    var credentials: map<string, string>

    /** `__init__`: load the credentials, then report the missing ones (the
        report is printed and changes nothing). */
    constructor (lines: seq<string>)
      ensures credentials == Credentials(lines)
    {
      var loaded := LoadCredentials(lines);
      credentials := loaded;
      new;
      var missing := ValidateCredentials(credentials);
    }

    /** `post_text(text, platforms)`. */
    method PostText(text: string, platforms: Option<seq<string>>, reply: (nat, nat) -> Outcome<Fields>)
      returns (results: Dict<Value>, calls: seq<Call>)
      ensures results == Fill(TextSteps(credentials, Targets(platforms), text, reply))
      ensures calls == Trace(TextSteps(credentials, Targets(platforms), text, reply))
    {
      var names := Targets(platforms);
      ghost var steps := TextSteps(credentials, names, text, reply);
      results, calls := [], [];
      for i := 0 to |names|
        invariant results == Fill(steps[..i]) && calls == Trace(steps[..i])
      {
        var platform := names[i];
        FillSnoc(steps, i);
        if platform == BLUESKY {
          var auth := BlueskyAuth(credentials);
          if auth.Raise? {
            results := Put(results, platform, Json(ErrorEntry(auth.msg)));
          } else {
            calls := calls + [RecordCall(auth.value, text, None)];
            results := Put(results, platform, Json(Record(reply(i, 0))));
          }
        } else if platform == MASTODON {
          var auth := MastodonAuth(credentials);
          if auth.Raise? {
            results := Put(results, platform, Json(ErrorEntry(auth.msg)));
          } else {
            var (base, token) := auth.value;
            calls := calls + [Send(base + "/api/v1/statuses", token, JSON, Status(text, None))];
            results := Put(results, platform, Json(Record(reply(i, 0))));
          }
        }
      }
      assert steps[..|names|] == steps;
    }

    /** `post_image(text, image_path, alt_text, platforms)`. `image` is the
        outcome of `_get_image_data` (open, save as JPEG, base64): when it
        fails, the outer `try` leaves only `{'error': msg}`. */
    method PostImage(text: string, image: Outcome<string>, alt: string, platforms: Option<seq<string>>,
                     reply: (nat, nat) -> Outcome<Fields>)
      returns (results: Dict<Value>, calls: seq<Call>)
      ensures image.Raise? ==> results == WholeCallError(image.msg) && calls == []
      ensures image.Ok? ==>
                && results == Fill(ImageSteps(credentials, Targets(platforms), text, image.value, alt, reply))
                && calls == Trace(ImageSteps(credentials, Targets(platforms), text, image.value, alt, reply))
    {
      var names := Targets(platforms);
      results, calls := [], [];
      if image.Raise? {
        results := Put(results, "error", Message(image.msg));
        return;
      }
      var data := image.value;
      ghost var steps := ImageSteps(credentials, names, text, data, alt, reply);
      for i := 0 to |names|
        invariant results == Fill(steps[..i]) && calls == Trace(steps[..i])
      {
        var platform := names[i];
        FillSnoc(steps, i);
        assert steps[i] == ImageStep(credentials, platform, i, text, data, alt, reply);
        if platform == BLUESKY {
          var auth := BlueskyAuth(credentials);
          assert Auth(credentials, platform) == auth;
          if auth.Raise? {
            results := Put(results, platform, Json(ErrorEntry(auth.msg)));
          } else {
            calls := calls + [RecordCall(auth.value, text, Some(Images(alt, data)))];
            results := Put(results, platform, Json(Record(reply(i, 0))));
          }
        } else if platform == MASTODON {
          var auth := MastodonAuth(credentials);
          assert Auth(credentials, platform) == auth;
          if auth.Raise? {
            results := Put(results, platform, Json(ErrorEntry(auth.msg)));
          } else {
            var (base, token) := auth.value;
            calls := calls + [Send(base + "/api/v1/media", token, MULTIPART, Upload("image.jpg", data, "image/jpeg"))];
            var media := reply(i, 0);
            if media.Raise? {
              results := Put(results, platform, Json(ErrorEntry(media.msg)));
            } else if "id" !in media.value {
              results := Put(results, platform, Json(ErrorEntry(KeyErrorText("id"))));
            } else {
              calls := calls + [Send(base + "/api/v1/statuses", token, MULTIPART, Status(text, Some([media.value["id"]])))];
              results := Put(results, platform, Json(Record(reply(i, 1))));
            }
          }
        }
      }
      assert steps[..|names|] == steps;
    }

    /** `post_link(text, url, platforms)`. `preview` is the outcome of fetching
        and parsing the page, `thumb` that of downloading and base64-encoding
        its image; either failure leaves only `{'error': msg}`. */
    method PostLink(text: string, url: string, platforms: Option<seq<string>>,
                    preview: Outcome<Preview>, thumb: Outcome<string>,
                    reply: (nat, nat) -> Outcome<Fields>)
      returns (results: Dict<Value>, calls: seq<Call>)
      ensures preview.Raise? ==> results == WholeCallError(preview.msg) && calls == [FetchPage(url)]
      ensures preview.Ok? && thumb.Raise? ==>
                results == WholeCallError(thumb.msg) && calls == [FetchPage(url), FetchImage(preview.value.image)]
      ensures preview.Ok? && thumb.Ok? ==>
                var steps := LinkSteps(credentials, Targets(platforms), text, url, preview.value, thumb.value, reply);
                results == Fill(steps) && calls == [FetchPage(url), FetchImage(preview.value.image)] + Trace(steps)
    {
      var names := Targets(platforms);
      results, calls := [], [FetchPage(url)];
      if preview.Raise? {
        results := Put(results, "error", Message(preview.msg));
        return;
      }
      var pv := preview.value;
      calls := calls + [FetchImage(pv.image)];
      if thumb.Raise? {
        results := Put(results, "error", Message(thumb.msg));
        return;
      }
      var data := thumb.value;
      var sent: seq<Call> := [];
      ghost var steps := LinkSteps(credentials, names, text, url, pv, data, reply);
      for i := 0 to |names|
        invariant results == Fill(steps[..i]) && sent == Trace(steps[..i])
      {
        var platform := names[i];
        FillSnoc(steps, i);
        assert steps[i] == LinkStep(credentials, platform, i, text, url, pv, data, reply);
        if platform == BLUESKY {
          var auth := BlueskyAuth(credentials);
          if auth.Raise? {
            results := Put(results, platform, Json(ErrorEntry(auth.msg)));
          } else {
            sent := sent + [RecordCall(auth.value, text, Some(External(url, pv.title, pv.description, data)))];
            results := Put(results, platform, Json(Record(reply(i, 0))));
          }
        } else if platform == MASTODON {
          var auth := MastodonAuth(credentials);
          if auth.Raise? {
            results := Put(results, platform, Json(ErrorEntry(auth.msg)));
          } else {
            var (base, token) := auth.value;
            sent := sent + [Send(base + "/api/v1/statuses", token, JSON, Status(text + "\n\n" + url, None))];
            results := Put(results, platform, Json(Record(reply(i, 0))));
          }
        }
      }
      assert steps[..|names|] == steps;
      calls := calls + sent;
    }
  }

  // ---------------------------------------------------------------------------
  // Properties

  /** The loop stores one entry per requested name that is `bluesky` or
      `mastodon` and none for any other; when the whole call fails the only
      key is `'error'`, which is not a platform name. */
  lemma PostTextKeys(credentials: map<string, string>, names: seq<string>, text: string,
                     reply: (nat, nat) -> Outcome<Fields>, k: string)
    ensures k in Keys(Fill(TextSteps(credentials, names, text, reply))) <==> k in KNOWN && k in names
  {
    var steps := TextSteps(credentials, names, text, reply);
    KeysAreRequestedKnownNames(steps, KNOWN, k);
    if k in names {
      var i :| 0 <= i < |names| && names[i] == k;
      assert steps[i].platform == k;
    }
  }

  lemma PostImageKeys(credentials: map<string, string>, names: seq<string>, text: string, image: string,
                      alt: string, reply: (nat, nat) -> Outcome<Fields>, k: string)
    ensures k in Keys(Fill(ImageSteps(credentials, names, text, image, alt, reply))) <==> k in KNOWN && k in names
    ensures "error" !in Keys(Fill(ImageSteps(credentials, names, text, image, alt, reply)))
  {
    var steps := ImageSteps(credentials, names, text, image, alt, reply);
    KeysAreRequestedKnownNames(steps, KNOWN, k);
    KeysAreRequestedKnownNames(steps, KNOWN, "error");
    if k in names {
      var i :| 0 <= i < |names| && names[i] == k;
      assert steps[i].platform == k;
    }
  }

  lemma PostLinkKeys(credentials: map<string, string>, names: seq<string>, text: string, url: string,
                     pv: Preview, thumb: string, reply: (nat, nat) -> Outcome<Fields>, k: string)
    ensures k in Keys(Fill(LinkSteps(credentials, names, text, url, pv, thumb, reply))) <==> k in KNOWN && k in names
    ensures "error" !in Keys(Fill(LinkSteps(credentials, names, text, url, pv, thumb, reply)))
  {
    var steps := LinkSteps(credentials, names, text, url, pv, thumb, reply);
    KeysAreRequestedKnownNames(steps, KNOWN, k);
    KeysAreRequestedKnownNames(steps, KNOWN, "error");
    if k in names {
      var i :| 0 <= i < |names| && names[i] == k;
      assert steps[i].platform == k;
    }
  }

  /** A missing credential shows up as the KeyError of the first key the
      request reads (the Bluesky password before the handle, the Mastodon URL
      before the token), and no request is sent for that platform. */
  lemma PostTextMissingCredential(credentials: map<string, string>, names: seq<string>, text: string,
                                  reply: (nat, nat) -> Outcome<Fields>, p: string)
    requires p in KNOWN && p in names && Auth(credentials, p).Raise?
    ensures Get(Fill(TextSteps(credentials, names, text, reply)), p) == Some(Json(ErrorEntry(Auth(credentials, p).msg)))
    ensures forall i :: 0 <= i < |names| && names[i] == p ==> TextSteps(credentials, names, text, reply)[i].calls == []
  {
    var steps := TextSteps(credentials, names, text, reply);
    var i :| 0 <= i < |names| && names[i] == p;
    assert steps[i].platform == p;
    FillUniform(steps, p, Json(ErrorEntry(Auth(credentials, p).msg)));
  }

  /** Failure isolation in `post_text`. */
  lemma PostTextIsolation(credentials: map<string, string>, names: seq<string>, text: string,
                          reply: (nat, nat) -> Outcome<Fields>, reply': (nat, nat) -> Outcome<Fields>,
                          i: nat, k: string)
    requires i < |names| && k != names[i]
    requires forall j, n :: j != i ==> reply(j, n) == reply'(j, n)
    ensures Get(Fill(TextSteps(credentials, names, text, reply')), k)
            == Get(Fill(TextSteps(credentials, names, text, reply)), k)
  {
    var steps := TextSteps(credentials, names, text, reply);
    var s := TextStep(credentials, names[i], i, text, reply');
    assert TextSteps(credentials, names, text, reply') == steps[i := s];
    FillIsolation(steps, i, s, k);
  }

  /** Every Bluesky record `post_link` sends goes to `createRecord`, is
      authorised with the password (not a session token), names the handle
      as repo, carries the fixed creation time, and embeds the one card built
      from the page. */
  lemma PostLinkBlueskyRequests(credentials: map<string, string>, names: seq<string>, text: string, url: string,
                                pv: Preview, thumb: string, reply: (nat, nat) -> Outcome<Fields>)
    ensures var trace := Trace(LinkSteps(credentials, names, text, url, pv, thumb, reply));
            forall j :: 0 <= j < |trace| && trace[j].Send? && trace[j].body.PostRecord? ==>
              && BLUESKY_PASSWORD in credentials && BLUESKY_HANDLE in credentials
              && trace[j] == Send(CREATE_RECORD, credentials[BLUESKY_PASSWORD], JSON,
                                  PostRecord(credentials[BLUESKY_HANDLE], text,
                                             Some(External(url, pv.title, pv.description, thumb)), CREATED_AT))
  {
    var steps := LinkSteps(credentials, names, text, url, pv, thumb, reply);
    var p := (c: Call) => c.Send? && c.body.PostRecord? ==>
              && BLUESKY_PASSWORD in credentials && BLUESKY_HANDLE in credentials
              && c == Send(CREATE_RECORD, credentials[BLUESKY_PASSWORD], JSON,
                           PostRecord(credentials[BLUESKY_HANDLE], text,
                                      Some(External(url, pv.title, pv.description, thumb)), CREATED_AT));
    TraceEvery(steps, p);
  }

  /** Every upload and every Bluesky image embed of `post_image` carries the
      same base64 image. */
  lemma PostImageSharesImage(credentials: map<string, string>, names: seq<string>, text: string, image: string,
                             alt: string, reply: (nat, nat) -> Outcome<Fields>)
    ensures var trace := Trace(ImageSteps(credentials, names, text, image, alt, reply));
            forall j :: 0 <= j < |trace| && trace[j].Send? ==>
              && (trace[j].body.Upload? ==> trace[j].body == Upload("image.jpg", image, "image/jpeg"))
              && (trace[j].body.PostRecord? ==> trace[j].body.embed == Some(Images(alt, image)))
  {
    var steps := ImageSteps(credentials, names, text, image, alt, reply);
    var p := (c: Call) => c.Send? ==>
              && (c.body.Upload? ==> c.body == Upload("image.jpg", image, "image/jpeg"))
              && (c.body.PostRecord? ==> c.body.embed == Some(Images(alt, image)));
    TraceEvery(steps, p);
  }
}
