/** `SocialMediaPoster` of social_media.py: a dict of provider clients built
    from environment variables, an image re-encoder, and three `post_*`
    operations that fan one message out to the requested platforms.
    Every provider call is given as an outcome: `reply(i, n)` is what the
    `n`-th provider call of the iteration for the `i`-th requested platform
    answers (its JSON object, or the text of the exception it raised). */
module SocialMedia {
  import opened Outcomes
  import opened Text
  import opened FanOut

  const BLUESKY := "bluesky"
  const MASTODON := "mastodon"

  /** The platform names the posting loops act on; any other name is skipped. */
  const KNOWN: set<string> := {BLUESKY, MASTODON}

  const BLUESKY_HANDLE := "BLUESKY_HANDLE"
  const BLUESKY_PASSWORD := "BLUESKY_PASSWORD"
  const MASTODON_ACCESS_TOKEN := "MASTODON_ACCESS_TOKEN"
  const MASTODON_API_BASE_URL := "MASTODON_API_BASE_URL"

  /** The size limit `post_image` asks `_resize_image` for, in KiB. */
  const MAX_SIZE_KB := 900

  // ---------------------------------------------------------------------------
  // _get_env_var

  /** `_get_env_var(key)`: the value of the environment variable, which must
      be set and non-empty (`if not value`); otherwise a ValueError. */
  function GetEnvVar(env: map<string, string>, key: string): (r: Outcome<string>)
    ensures r.Ok? <==> key in env && env[key] != ""
    ensures r.Ok? ==> r.value == env[key]
    ensures r.Raise? ==> r.msg == "Environment variable " + key + " is not set"
  {
    if key in env && env[key] != "" then Ok(env[key])
    else Raise("Environment variable " + key + " is not set")
  }

  // ---------------------------------------------------------------------------
  // _initialize_clients

  /** A provider client as kept in `self.clients`: a Bluesky client with the
      handle it logged in as (None: the login never succeeded), or a Mastodon
      client with its access token and instance URL. */
  datatype Client = Bluesky(session: Option<string>) | Mastodon(token: string, base: string)

  /** Both Bluesky variables are set and the login with them succeeds. */
  predicate LoginSucceeds(env: map<string, string>, login: (string, string) -> Outcome<()>) {
    && BLUESKY_HANDLE in env && env[BLUESKY_HANDLE] != ""
    && BLUESKY_PASSWORD in env && env[BLUESKY_PASSWORD] != ""
    && login(env[BLUESKY_HANDLE], env[BLUESKY_PASSWORD]).Ok?
  }

  /** Both Mastodon variables are set and the client can be built with them. */
  predicate ConnectSucceeds(env: map<string, string>, connect: (string, string) -> Outcome<()>) {
    && MASTODON_ACCESS_TOKEN in env && env[MASTODON_ACCESS_TOKEN] != ""
    && MASTODON_API_BASE_URL in env && env[MASTODON_API_BASE_URL] != ""
    && connect(env[MASTODON_ACCESS_TOKEN], env[MASTODON_API_BASE_URL]).Ok?
  }

  /** The clients dict `_initialize_clients` builds. `newBluesky` is the
      outcome of `BlueskyClient()`, `login(handle, password)` that of the
      login and `connect(token, base)` that of `Mastodon(...)`. */
  function InitialClients(env: map<string, string>, newBluesky: Outcome<()>,
                          login: (string, string) -> Outcome<()>,
                          connect: (string, string) -> Outcome<()>): Dict<Client>
  {
    var handle := GetEnvVar(env, BLUESKY_HANDLE);
    var password := GetEnvVar(env, BLUESKY_PASSWORD);
    var d :=
      if newBluesky.Raise? then []
      else if handle.Ok? && password.Ok? && login(handle.value, password.value).Ok? then
        [(BLUESKY, Bluesky(Some(handle.value)))]
      else [(BLUESKY, Bluesky(None))];
    var token := GetEnvVar(env, MASTODON_ACCESS_TOKEN);
    var base := GetEnvVar(env, MASTODON_API_BASE_URL);
    if token.Ok? && base.Ok? && connect(token.value, base.value).Ok? then
      Put(d, MASTODON, Mastodon(token.value, base.value))
    else d
  }

  /** The Bluesky entry is stored as soon as the client object exists, before
      the login: it stays in the dict, not logged in, when a credential is
      missing or the login fails. The Mastodon entry is stored only when both
      of its variables are set and the client could be built. */
  lemma InitialClientsKeys(env: map<string, string>, newBluesky: Outcome<()>,
                           login: (string, string) -> Outcome<()>,
                           connect: (string, string) -> Outcome<()>)
    ensures var d := InitialClients(env, newBluesky, login, connect);
      && Distinct(Keys(d))
      && (forall k :: k in Keys(d) ==> k in KNOWN)
      && (BLUESKY in Keys(d) <==> newBluesky.Ok?)
      && (MASTODON in Keys(d) <==> ConnectSucceeds(env, connect))
      && (newBluesky.Ok? && LoginSucceeds(env, login) ==> Get(d, BLUESKY) == Some(Bluesky(Some(env[BLUESKY_HANDLE]))))
      && (newBluesky.Ok? && !LoginSucceeds(env, login) ==> Get(d, BLUESKY) == Some(Bluesky(None)))
  {
    var d := InitialClients(env, newBluesky, login, connect);
    var handle := GetEnvVar(env, BLUESKY_HANDLE);
    var password := GetEnvVar(env, BLUESKY_PASSWORD);
    var d0 :=
      if newBluesky.Raise? then []
      else if handle.Ok? && password.Ok? && login(handle.value, password.value).Ok? then
        [(BLUESKY, Bluesky(Some(handle.value)))]
      else [(BLUESKY, Bluesky(None))];
    assert Keys(d0) == if newBluesky.Raise? then [] else [BLUESKY];
    if ConnectSucceeds(env, connect) {
      PutLookup(d0, MASTODON, Mastodon(env[MASTODON_ACCESS_TOKEN], env[MASTODON_API_BASE_URL]));
    }
    GetSomeIffKey(d, BLUESKY);
    GetSomeIffKey(d0, BLUESKY);
  }

  // ---------------------------------------------------------------------------
  // _resize_image

  /** The first JPEG encoding, from quality `q` down in steps of 5, whose
      size in KiB is at most `maxSizeKb`; at quality 5 the encoding is taken
      whatever its size. `encode(q)` is the image saved as JPEG at quality
      `q`. The size test `len / 1024 <= max_size_kb` is written in bytes. */
  function FirstFit(encode: int -> Bytes, maxSizeKb: int, q: int): Bytes
    decreases q
  {
    if |encode(q)| <= 1024 * maxSizeKb || q <= 5 then encode(q)
    else FirstFit(encode, maxSizeKb, q - 5)
  }

  /** The qualities the loop of `_resize_image` tries: 95, 90, ..., 5. */
  predicate Quality(q: int) {
    5 <= q <= 95 && q % 5 == 0
  }

  /** Reference meaning of FirstFit: the encoding at the highest quality that
      fits, or at quality 5 when none does. */
  lemma {:induction false} FirstFitChoice(encode: int -> Bytes, maxSizeKb: int, q: int)
    requires Quality(q)
    ensures exists p :: Quality(p) && p <= q && FirstFit(encode, maxSizeKb, q) == encode(p)
                        && (|encode(p)| <= 1024 * maxSizeKb || p == 5)
                        && forall p' :: Quality(p') && p < p' <= q ==> |encode(p')| > 1024 * maxSizeKb
    decreases q
  {
    if |encode(q)| <= 1024 * maxSizeKb || q <= 5 {
      assert Quality(q) && FirstFit(encode, maxSizeKb, q) == encode(q);
    } else {
      FirstFitChoice(encode, maxSizeKb, q - 5);
      var p :| Quality(p) && p <= q - 5 && FirstFit(encode, maxSizeKb, q - 5) == encode(p)
               && (|encode(p)| <= 1024 * maxSizeKb || p == 5)
               && forall p' :: Quality(p') && p < p' <= q - 5 ==> |encode(p')| > 1024 * maxSizeKb;
      forall p' | Quality(p') && p < p' <= q ensures |encode(p')| > 1024 * maxSizeKb {
        if p' > q - 5 {
          assert p' == q;
        }
      }
    }
  }

  /** When some quality from `q` down fits the limit, so does the result. */
  lemma FirstFitFits(encode: int -> Bytes, maxSizeKb: int, q: int, p: int)
    requires Quality(q) && Quality(p) && p <= q && |encode(p)| <= 1024 * maxSizeKb
    ensures |FirstFit(encode, maxSizeKb, q)| <= 1024 * maxSizeKb
  {
    FirstFitChoice(encode, maxSizeKb, q);
  }

  /** When no quality fits, the result is the quality-5 encoding, however
      large: the size limit is a target, not a guarantee. */
  lemma FirstFitOverLimit(encode: int -> Bytes, maxSizeKb: int)
    requires forall p :: Quality(p) ==> |encode(p)| > 1024 * maxSizeKb
    ensures FirstFit(encode, maxSizeKb, 95) == encode(5)
    ensures |FirstFit(encode, maxSizeKb, 95)| > 1024 * maxSizeKb
  {
    FirstFitChoice(encode, maxSizeKb, 95);
  }

  /** `_resize_image(image_path, max_size_kb)`: re-encode at falling quality
      until the result fits. The branch that would shrink the image is never
      taken, since the loop returns at quality 5 before reaching it. */
  method ResizeImage(encode: int -> Bytes, maxSizeKb: int) returns (data: Bytes, ghost tries: nat)
    ensures data == FirstFit(encode, maxSizeKb, 95)
    ensures 1 <= tries <= 19
  {
    var quality := 95;
    tries := 0;
    while true
      invariant Quality(quality)
      invariant FirstFit(encode, maxSizeKb, quality) == FirstFit(encode, maxSizeKb, 95)
      invariant tries == (95 - quality) / 5
      decreases quality
    {
      var buffer := encode(quality);
      tries := tries + 1;
      if |buffer| <= 1024 * maxSizeKb || quality <= 5 {
        return buffer, tries;
      }
      if quality > 5 {
        quality := quality - 5;
      } else {
        assert false;
      }
    }
  }

  // ---------------------------------------------------------------------------
  // MIME type

  /** The MIME type `post_image` sends to Mastodon: the type guessed from the
      file name when it is an `image/` type, `image/jpeg` otherwise. */
  function MimeType(guess: Option<string>): (r: string)
    ensures "image/" <= r
    ensures guess.Some? && "image/" <= guess.value ==> r == guess.value
    ensures !(guess.Some? && "image/" <= guess.value) ==> r == "image/jpeg"
  {
    if guess.None? || guess.value == "" || !("image/" <= guess.value) then "image/jpeg"
    else guess.value
  }

  // ---------------------------------------------------------------------------
  // The post_* loops

  /** The link card of `post_link` (`app.bsky.embed.external`). */
  datatype External = External(uri: string, title: string, description: string, thumb: Bytes)

  /** An opened image file: its size and its JPEG encoding at each quality. */
  datatype Picture = Picture(width: nat, height: nat, encode: int -> Bytes)

  /** The outside calls the posting loops make, in order. */
  datatype Call =
    | SendPost(text: string, embed: Option<External>)
    | SendImage(text: string, image: Bytes, alt: string, width: nat, height: nat)
    | Toot(status: string)
    | MediaPost(media: Bytes, mime: string, description: string)
    | StatusPost(status: string, mediaIds: seq<string>)
    | FetchPage(url: string)
    | FetchImage(url: string)

  /** `platforms`, or every key of the clients dict when it is None. */
  function Targets(clients: Dict<Client>, platforms: Option<seq<string>>): seq<string> {
    if platforms.None? then Keys(clients) else platforms.value
  }

  /** One iteration of `post_text` for the requested name `p`. */
  function TextStep(clients: Dict<Client>, p: string, i: nat, text: string,
                    reply: (nat, nat) -> Outcome<Fields>): Step<Fields, Call>
  {
    if p == BLUESKY then
      if Get(clients, BLUESKY).None? then Step(p, Some(ErrorEntry(KeyErrorText(BLUESKY))), [])
      else Step(p, Some(Record(reply(i, 0))), [SendPost(text, None)])
    else if p == MASTODON then
      if Get(clients, MASTODON).None? then Step(p, Some(ErrorEntry(KeyErrorText(MASTODON))), [])
      else Step(p, Some(Record(reply(i, 0))), [Toot(text)])
    else Step(p, None, [])
  }

  function TextSteps(clients: Dict<Client>, names: seq<string>, text: string,
                     reply: (nat, nat) -> Outcome<Fields>): seq<Step<Fields, Call>>
  {
    seq(|names|, i requires 0 <= i < |names| => TextStep(clients, names[i], i, text, reply))
  }

  /** One iteration of `post_image` for `p`: Bluesky gets the image in one
      call; Mastodon gets an upload, then a status naming the upload's `id`. */
  function ImageStep(clients: Dict<Client>, p: string, i: nat, text: string, data: Bytes, alt: string,
                     width: nat, height: nat, mime: string,
                     reply: (nat, nat) -> Outcome<Fields>): Step<Fields, Call>
  {
    if p == BLUESKY then
      if Get(clients, BLUESKY).None? then Step(p, Some(ErrorEntry(KeyErrorText(BLUESKY))), [])
      else Step(p, Some(Record(reply(i, 0))), [SendImage(text, data, alt, width, height)])
    else if p == MASTODON then
      if Get(clients, MASTODON).None? then Step(p, Some(ErrorEntry(KeyErrorText(MASTODON))), [])
      else
        var upload := [MediaPost(data, mime, alt)];
        match reply(i, 0)
        case Raise(msg) => Step(p, Some(ErrorEntry(msg)), upload)
        case Ok(media) =>
          if "id" !in media then Step(p, Some(ErrorEntry(KeyErrorText("id"))), upload)
          else Step(p, Some(Record(reply(i, 1))), upload + [StatusPost(text, [media["id"]])])
    else Step(p, None, [])
  }

  function ImageSteps(clients: Dict<Client>, names: seq<string>, text: string, data: Bytes, alt: string,
                      width: nat, height: nat, mime: string,
                      reply: (nat, nat) -> Outcome<Fields>): seq<Step<Fields, Call>>
  {
    seq(|names|, i requires 0 <= i < |names| =>
      ImageStep(clients, names[i], i, text, data, alt, width, height, mime, reply))
  }

  /** One iteration of `post_link` for `p`. For Bluesky the page and its
      image are fetched (`preview(i)`, `thumb(i)`) before the client is looked
      up; Mastodon gets the text and the URL separated by a blank line. */
  function LinkStep(clients: Dict<Client>, p: string, i: nat, text: string, url: string,
                    preview: nat -> Outcome<Preview>, thumb: nat -> Outcome<Bytes>,
                    reply: (nat, nat) -> Outcome<Fields>): Step<Fields, Call>
  {
    if p == BLUESKY then
      match preview(i)
      case Raise(msg) => Step(p, Some(ErrorEntry(msg)), [FetchPage(url)])
      case Ok(pv) =>
        var fetched := [FetchPage(url), FetchImage(pv.image)];
        match thumb(i)
        case Raise(msg) => Step(p, Some(ErrorEntry(msg)), fetched)
        case Ok(image) =>
          if Get(clients, BLUESKY).None? then Step(p, Some(ErrorEntry(KeyErrorText(BLUESKY))), fetched)
          else
            var card := External(url, pv.title, pv.description, image);
            Step(p, Some(Record(reply(i, 0))), fetched + [SendPost(text, Some(card))])
    else if p == MASTODON then
      if Get(clients, MASTODON).None? then Step(p, Some(ErrorEntry(KeyErrorText(MASTODON))), [])
      else Step(p, Some(Record(reply(i, 0))), [Toot(text + "\n\n" + url)])
    else Step(p, None, [])
  }

  function LinkSteps(clients: Dict<Client>, names: seq<string>, text: string, url: string,
                     preview: nat -> Outcome<Preview>, thumb: nat -> Outcome<Bytes>,
                     reply: (nat, nat) -> Outcome<Fields>): seq<Step<Fields, Call>>
  {
    seq(|names|, i requires 0 <= i < |names| => LinkStep(clients, names[i], i, text, url, preview, thumb, reply))
  }

  /** `SocialMediaPoster`: the clients dict and the operations that use it. */
  class Poster {
    var clients: Dict<Client>

    /** `__init__` followed by `_initialize_clients`: each platform is set up
        in its own `try`, so a failure for one leaves the other alone. */
    constructor (env: map<string, string>, newBluesky: Outcome<()>,
                 login: (string, string) -> Outcome<()>,
                 connect: (string, string) -> Outcome<()>)
      ensures clients == InitialClients(env, newBluesky, login, connect)
    {
      clients := [];
      new;
      if newBluesky.Ok? {
        clients := Put(clients, BLUESKY, Bluesky(None));
        assert clients == [(BLUESKY, Bluesky(None))];
        var handle := GetEnvVar(env, BLUESKY_HANDLE);
        var password := GetEnvVar(env, BLUESKY_PASSWORD);
        if handle.Ok? && password.Ok? && login(handle.value, password.value).Ok? {
          clients := Put(clients, BLUESKY, Bluesky(Some(handle.value)));
          assert clients == [(BLUESKY, Bluesky(Some(handle.value)))];
        }
      }
      var token := GetEnvVar(env, MASTODON_ACCESS_TOKEN);
      var base := GetEnvVar(env, MASTODON_API_BASE_URL);
      if token.Ok? && base.Ok? && connect(token.value, base.value).Ok? {
        clients := Put(clients, MASTODON, Mastodon(token.value, base.value));
      }
    }

    /** `post_text(text, platforms)`: the result dict and the calls made. */
    method PostText(text: string, platforms: Option<seq<string>>, reply: (nat, nat) -> Outcome<Fields>)
      returns (results: Dict<Fields>, calls: seq<Call>)
      ensures results == Fill(TextSteps(clients, Targets(clients, platforms), text, reply))
      ensures calls == Trace(TextSteps(clients, Targets(clients, platforms), text, reply))
    {
      var names := Targets(clients, platforms);
      ghost var steps := TextSteps(clients, names, text, reply);
      results, calls := [], [];
      var i := 0;
      while i < |names|
        invariant 0 <= i <= |names|
        invariant results == Fill(steps[..i]) && calls == Trace(steps[..i])
      {
        var platform := names[i];
        FillSnoc(steps, i);
        if platform == BLUESKY {
          if Get(clients, BLUESKY).None? {
            results := Put(results, platform, ErrorEntry(KeyErrorText(BLUESKY)));
          } else {
            calls := calls + [SendPost(text, None)];
            results := Put(results, platform, Record(reply(i, 0)));
          }
        } else if platform == MASTODON {
          if Get(clients, MASTODON).None? {
            results := Put(results, platform, ErrorEntry(KeyErrorText(MASTODON)));
          } else {
            calls := calls + [Toot(text)];
            results := Put(results, platform, Record(reply(i, 0)));
          }
        }
        i := i + 1;
      }
      assert steps[..i] == steps;
    }

    /** `post_image(text, image_path, alt_text, platforms)`. Opening the image
        (`picture`) is outside the loop's `try`: when it fails the whole call
        raises and nothing is posted. Otherwise the image is re-encoded once
        for a 900 KiB limit and the same bytes go to every platform. */
    method PostImage(text: string, picture: Outcome<Picture>, alt: string, platforms: Option<seq<string>>,
                     guess: Option<string>, reply: (nat, nat) -> Outcome<Fields>)
      returns (r: Outcome<Dict<Fields>>, calls: seq<Call>)
      ensures picture.Raise? ==> r == Raise(picture.msg) && calls == []
      ensures picture.Ok? ==>
                var pic := picture.value;
                var steps := ImageSteps(clients, Targets(clients, platforms), text,
                                        FirstFit(pic.encode, MAX_SIZE_KB, 95), alt,
                                        pic.width, pic.height, MimeType(guess), reply);
                r == Ok(Fill(steps)) && calls == Trace(steps)
    {
      var names := Targets(clients, platforms);
      if picture.Raise? {
        return Raise(picture.msg), [];
      }
      var width, height := picture.value.width, picture.value.height;
      var data, _ := ResizeImage(picture.value.encode, MAX_SIZE_KB);
      var mime := MimeType(guess);
      ghost var steps := ImageSteps(clients, names, text, data, alt, width, height, mime, reply);
      var results: Dict<Fields> := [];
      calls := [];
      var i := 0;
      while i < |names|
        invariant 0 <= i <= |names|
        invariant results == Fill(steps[..i]) && calls == Trace(steps[..i])
      {
        var platform := names[i];
        FillSnoc(steps, i);
        if platform == BLUESKY {
          if Get(clients, BLUESKY).None? {
            results := Put(results, platform, ErrorEntry(KeyErrorText(BLUESKY)));
          } else {
            calls := calls + [SendImage(text, data, alt, width, height)];
            results := Put(results, platform, Record(reply(i, 0)));
          }
        } else if platform == MASTODON {
          if Get(clients, MASTODON).None? {
            results := Put(results, platform, ErrorEntry(KeyErrorText(MASTODON)));
          } else {
            calls := calls + [MediaPost(data, mime, alt)];
            var media := reply(i, 0);
            if media.Raise? {
              results := Put(results, platform, ErrorEntry(media.msg));
            } else if "id" !in media.value {
              results := Put(results, platform, ErrorEntry(KeyErrorText("id")));
            } else {
              calls := calls + [StatusPost(text, [media.value["id"]])];
              results := Put(results, platform, Record(reply(i, 1)));
            }
          }
        }
        i := i + 1;
      }
      assert steps[..i] == steps;
      r := Ok(results);
    }

    /** `post_link(text, url, platforms)`. */
    method PostLink(text: string, url: string, platforms: Option<seq<string>>,
                    preview: nat -> Outcome<Preview>, thumb: nat -> Outcome<Bytes>,
                    reply: (nat, nat) -> Outcome<Fields>)
      returns (results: Dict<Fields>, calls: seq<Call>)
      ensures results == Fill(LinkSteps(clients, Targets(clients, platforms), text, url, preview, thumb, reply))
      ensures calls == Trace(LinkSteps(clients, Targets(clients, platforms), text, url, preview, thumb, reply))
    {
      var names := Targets(clients, platforms);
      ghost var steps := LinkSteps(clients, names, text, url, preview, thumb, reply);
      results, calls := [], [];
      var i := 0;
      while i < |names|
        invariant 0 <= i <= |names|
        invariant results == Fill(steps[..i]) && calls == Trace(steps[..i])
      {
        var platform := names[i];
        FillSnoc(steps, i);
        if platform == BLUESKY {
          calls := calls + [FetchPage(url)];
          var page := preview(i);
          if page.Raise? {
            results := Put(results, platform, ErrorEntry(page.msg));
          } else {
            calls := calls + [FetchImage(page.value.image)];
            var image := thumb(i);
            if image.Raise? {
              results := Put(results, platform, ErrorEntry(image.msg));
            } else if Get(clients, BLUESKY).None? {
              results := Put(results, platform, ErrorEntry(KeyErrorText(BLUESKY)));
            } else {
              var card := External(url, page.value.title, page.value.description, image.value);
              calls := calls + [SendPost(text, Some(card))];
              results := Put(results, platform, Record(reply(i, 0)));
            }
          }
        } else if platform == MASTODON {
          if Get(clients, MASTODON).None? {
            results := Put(results, platform, ErrorEntry(KeyErrorText(MASTODON)));
          } else {
            calls := calls + [Toot(text + "\n\n" + url)];
            results := Put(results, platform, Record(reply(i, 0)));
          }
        }
        i := i + 1;
      }
      assert steps[..i] == steps;
    }
  }

  // ---------------------------------------------------------------------------
  // Properties of the posting loops

  /** The result of `post_text` has one entry per requested name that is
      `bluesky` or `mastodon`, and none for any other name. */
  lemma PostTextKeys(clients: Dict<Client>, names: seq<string>, text: string,
                     reply: (nat, nat) -> Outcome<Fields>, k: string)
    ensures k in Keys(Fill(TextSteps(clients, names, text, reply))) <==> k in KNOWN && k in names
  {
    var steps := TextSteps(clients, names, text, reply);
    KeysAreRequestedKnownNames(steps, KNOWN, k);
    if k in names {
      var i :| 0 <= i < |names| && names[i] == k;
      assert steps[i].platform == k;
    }
  }

  lemma PostImageKeys(clients: Dict<Client>, names: seq<string>, text: string, data: Bytes, alt: string,
                      width: nat, height: nat, mime: string, reply: (nat, nat) -> Outcome<Fields>, k: string)
    ensures k in Keys(Fill(ImageSteps(clients, names, text, data, alt, width, height, mime, reply)))
            <==> k in KNOWN && k in names
  {
    var steps := ImageSteps(clients, names, text, data, alt, width, height, mime, reply);
    KeysAreRequestedKnownNames(steps, KNOWN, k);
    if k in names {
      var i :| 0 <= i < |names| && names[i] == k;
      assert steps[i].platform == k;
    }
  }

  lemma PostLinkKeys(clients: Dict<Client>, names: seq<string>, text: string, url: string,
                     preview: nat -> Outcome<Preview>, thumb: nat -> Outcome<Bytes>,
                     reply: (nat, nat) -> Outcome<Fields>, k: string)
    ensures k in Keys(Fill(LinkSteps(clients, names, text, url, preview, thumb, reply)))
            <==> k in KNOWN && k in names
  {
    var steps := LinkSteps(clients, names, text, url, preview, thumb, reply);
    KeysAreRequestedKnownNames(steps, KNOWN, k);
    if k in names {
      var i :| 0 <= i < |names| && names[i] == k;
      assert steps[i].platform == k;
    }
  }

  /** Requested platforms without a client get the KeyError entry `'name'`. */
  lemma PostTextMissingClient(clients: Dict<Client>, names: seq<string>, text: string,
                              reply: (nat, nat) -> Outcome<Fields>, p: string)
    requires p in KNOWN && p in names && Get(clients, p).None?
    ensures Get(Fill(TextSteps(clients, names, text, reply)), p) == Some(ErrorEntry(KeyErrorText(p)))
  {
    var steps := TextSteps(clients, names, text, reply);
    var i :| 0 <= i < |names| && names[i] == p;
    assert steps[i].platform == p;
    FillUniform(steps, p, ErrorEntry(KeyErrorText(p)));
  }

  lemma PostImageMissingClient(clients: Dict<Client>, names: seq<string>, text: string, data: Bytes, alt: string,
                               width: nat, height: nat, mime: string,
                               reply: (nat, nat) -> Outcome<Fields>, p: string)
    requires p in KNOWN && p in names && Get(clients, p).None?
    ensures Get(Fill(ImageSteps(clients, names, text, data, alt, width, height, mime, reply)), p)
            == Some(ErrorEntry(KeyErrorText(p)))
  {
    var steps := ImageSteps(clients, names, text, data, alt, width, height, mime, reply);
    var i :| 0 <= i < |names| && names[i] == p;
    assert steps[i].platform == p;
    FillUniform(steps, p, ErrorEntry(KeyErrorText(p)));
  }

  /** The error a `post_link` iteration for Bluesky stores when there is no
      Bluesky client: the page fetch's error, else the image fetch's error,
      else the KeyError of the client lookup. */
  function BlueskyLinkError(preview: nat -> Outcome<Preview>, thumb: nat -> Outcome<Bytes>, i: nat): string {
    if preview(i).Raise? then preview(i).msg
    else if thumb(i).Raise? then thumb(i).msg
    else KeyErrorText(BLUESKY)
  }

  /** A requested platform without a client ends up as an `'error'` entry in
      the result of `post_link` too: the KeyError for Mastodon, and for
      Bluesky the error of one of its iterations, which fails either while
      fetching or at the lookup. */
  lemma PostLinkMissingClient(clients: Dict<Client>, names: seq<string>, text: string, url: string,
                              preview: nat -> Outcome<Preview>, thumb: nat -> Outcome<Bytes>,
                              reply: (nat, nat) -> Outcome<Fields>, p: string)
    requires p in KNOWN && p in names && Get(clients, p).None?
    ensures var results := Fill(LinkSteps(clients, names, text, url, preview, thumb, reply));
            && (p == MASTODON ==> Get(results, p) == Some(ErrorEntry(KeyErrorText(MASTODON))))
            && (p == BLUESKY ==>
                  exists i :: 0 <= i < |names| && names[i] == BLUESKY
                              && Get(results, p) == Some(ErrorEntry(BlueskyLinkError(preview, thumb, i))))
  {
    var steps := LinkSteps(clients, names, text, url, preview, thumb, reply);
    var i :| 0 <= i < |names| && names[i] == p;
    assert steps[i].platform == p;
    if p == MASTODON {
      FillUniform(steps, p, ErrorEntry(KeyErrorText(p)));
    } else {
      FillLookup(steps);
      LastEntrySomeIff(steps, p);
      LastEntryIn(steps, p);
      var j :| 0 <= j < |steps| && steps[j].platform == p && steps[j].entry == LastEntry(steps, p);
      assert names[j] == BLUESKY && steps[j].entry == Some(ErrorEntry(BlueskyLinkError(preview, thumb, j)));
    }
  }

  /** A missing Bluesky client does not stop `post_link` from fetching the
      page and its image first; only then does the lookup fail. */
  lemma PostLinkFetchesBeforeLookup(clients: Dict<Client>, names: seq<string>, text: string, url: string,
                                    preview: nat -> Outcome<Preview>, thumb: nat -> Outcome<Bytes>,
                                    reply: (nat, nat) -> Outcome<Fields>, i: nat)
    requires i < |names| && names[i] == BLUESKY && Get(clients, BLUESKY).None?
    requires preview(i).Ok? && thumb(i).Ok?
    ensures var steps := LinkSteps(clients, names, text, url, preview, thumb, reply);
            var trace := Trace(steps);
            && |Trace(steps[..i])| + 2 <= |trace|
            && trace[|Trace(steps[..i])|] == FetchPage(url)
            && trace[|Trace(steps[..i])| + 1] == FetchImage(preview(i).value.image)
            && steps[i].entry == Some(ErrorEntry(KeyErrorText(BLUESKY)))
  {
    var steps := LinkSteps(clients, names, text, url, preview, thumb, reply);
    TraceSplit(steps, i);
  }

  /** Failure isolation in `post_text`: whatever the provider answers in the
      iteration for the `i`-th requested name, every other name's entry is
      the same. */
  lemma PostTextIsolation(clients: Dict<Client>, names: seq<string>, text: string,
                          reply: (nat, nat) -> Outcome<Fields>, reply': (nat, nat) -> Outcome<Fields>,
                          i: nat, k: string)
    requires i < |names| && k != names[i]
    requires forall j, n :: j != i ==> reply(j, n) == reply'(j, n)
    ensures Get(Fill(TextSteps(clients, names, text, reply')), k) == Get(Fill(TextSteps(clients, names, text, reply)), k)
  {
    var steps := TextSteps(clients, names, text, reply);
    var s := TextStep(clients, names[i], i, text, reply');
    assert TextSteps(clients, names, text, reply') == steps[i := s];
    FillIsolation(steps, i, s, k);
  }

  lemma PostImageIsolation(clients: Dict<Client>, names: seq<string>, text: string, data: Bytes, alt: string,
                           width: nat, height: nat, mime: string,
                           reply: (nat, nat) -> Outcome<Fields>, reply': (nat, nat) -> Outcome<Fields>,
                           i: nat, k: string)
    requires i < |names| && k != names[i]
    requires forall j, n :: j != i ==> reply(j, n) == reply'(j, n)
    ensures Get(Fill(ImageSteps(clients, names, text, data, alt, width, height, mime, reply')), k)
            == Get(Fill(ImageSteps(clients, names, text, data, alt, width, height, mime, reply)), k)
  {
    var steps := ImageSteps(clients, names, text, data, alt, width, height, mime, reply);
    var s := ImageStep(clients, names[i], i, text, data, alt, width, height, mime, reply');
    assert ImageSteps(clients, names, text, data, alt, width, height, mime, reply') == steps[i := s];
    FillIsolation(steps, i, s, k);
  }

  lemma PostLinkIsolation(clients: Dict<Client>, names: seq<string>, text: string, url: string,
                          preview: nat -> Outcome<Preview>, thumb: nat -> Outcome<Bytes>,
                          reply: (nat, nat) -> Outcome<Fields>,
                          preview': nat -> Outcome<Preview>, thumb': nat -> Outcome<Bytes>,
                          reply': (nat, nat) -> Outcome<Fields>, i: nat, k: string)
    requires i < |names| && k != names[i]
    requires forall j, n :: j != i ==> reply(j, n) == reply'(j, n)
    requires forall j :: j != i ==> preview(j) == preview'(j) && thumb(j) == thumb'(j)
    ensures Get(Fill(LinkSteps(clients, names, text, url, preview', thumb', reply')), k)
            == Get(Fill(LinkSteps(clients, names, text, url, preview, thumb, reply)), k)
  {
    var steps := LinkSteps(clients, names, text, url, preview, thumb, reply);
    var s := LinkStep(clients, names[i], i, text, url, preview', thumb', reply');
    assert LinkSteps(clients, names, text, url, preview', thumb', reply') == steps[i := s];
    FillIsolation(steps, i, s, k);
  }

  /** Every image upload of `post_image` carries the same re-encoded bytes,
      and every Mastodon upload the same MIME type. */
  lemma PostImageSharesBytes(clients: Dict<Client>, names: seq<string>, text: string, data: Bytes, alt: string,
                             width: nat, height: nat, mime: string, reply: (nat, nat) -> Outcome<Fields>)
    ensures var trace := Trace(ImageSteps(clients, names, text, data, alt, width, height, mime, reply));
            forall j :: 0 <= j < |trace| ==>
              && (trace[j].SendImage? ==> trace[j].image == data && trace[j].alt == alt)
              && (trace[j].MediaPost? ==> trace[j].media == data && trace[j].mime == mime)
  {
    var steps := ImageSteps(clients, names, text, data, alt, width, height, mime, reply);
    var p := (c: Call) => (c.SendImage? ==> c.image == data && c.alt == alt)
                          && (c.MediaPost? ==> c.media == data && c.mime == mime);
    TraceEvery(steps, p);
  }

  /** A Mastodon status of `post_image` names the `id` of the upload made just
      before it in the same iteration. */
  lemma PostImageStatusNamesUpload(clients: Dict<Client>, names: seq<string>, text: string, data: Bytes,
                                   alt: string, width: nat, height: nat, mime: string,
                                   reply: (nat, nat) -> Outcome<Fields>, i: nat)
    requires i < |names| && names[i] == MASTODON && Get(clients, MASTODON).Some?
    ensures var s := ImageSteps(clients, names, text, data, alt, width, height, mime, reply)[i];
            && s.calls[0] == MediaPost(data, mime, alt)
            && (|s.calls| == 2 <==> reply(i, 0).Ok? && "id" in reply(i, 0).value)
            && (|s.calls| == 2 ==>
                  s.calls[1] == StatusPost(text, [reply(i, 0).value["id"]]) && s.entry == Some(Record(reply(i, 1))))
  {
  }
}
