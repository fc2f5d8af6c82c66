/** The `/post` handler of the web front end (app.py): validate the form,
    choose one of the three posting operations of `SocialMedia.Poster`, and
    sort the per-platform results into successes and error lines. */
module App {
  import opened Outcomes
  import opened Text
  import opened FanOut
  import opened SocialMedia

  const NO_TEXT := "Please enter some text for your post"
  const NO_PLATFORMS := "Please select at least one platform"

  /** An uploaded image field: its file name, the outcome of saving it under
      the upload folder, the outcome of opening the saved file, and the MIME
      type guessed from its path. */
  datatype ImageUpload = ImageUpload(filename: string, saved: Outcome<()>, picture: Outcome<Picture>,
                                     guess: Option<string>)

  /** The submitted form: the `text` field (None: absent), the selected
      `platforms`, the `image` file field (None: absent) and the `link` field. */
  datatype Form = Form(text: Option<string>, platforms: seq<string>, image: Option<ImageUpload>,
                       link: Option<string>)

  /** The JSON answer: `{'error': ...}` or `{'success': [...], 'errors': [...]}`. */
  datatype Response = Failure(error: string) | Summary(success: seq<string>, errors: seq<string>)

  /** The error line for a platform whose result holds `'error'`. */
  function ErrorLine(platform: string, result: Fields): string
    requires "error" in result
  {
    platform + ": " + result["error"]
  }

  /** The platforms whose result has no `'error'` key, in dict order. */
  function Successes(results: Dict<Fields>): seq<string> {
    if results == [] then []
    else
      var (platform, result) := results[|results| - 1];
      Successes(results[..|results| - 1]) + if "error" in result then [] else [platform]
  }

  /** The error lines of the platforms whose result has an `'error'` key, in
      dict order. */
  function Errors(results: Dict<Fields>): seq<string> {
    if results == [] then []
    else
      var (platform, result) := results[|results| - 1];
      Errors(results[..|results| - 1]) + if "error" in result then [ErrorLine(platform, result)] else []
  }

  /** The two lists partition the results: every entry lands in exactly one
      of them, a platform is a success exactly when its result has no
      `'error'` key, and every failed platform has its error line. */
  lemma {:induction false} SummaryPartition(results: Dict<Fields>)
    ensures |Successes(results)| + |Errors(results)| == |results|
    ensures forall k :: k in Successes(results) <==> exists i :: 0 <= i < |results| && results[i].0 == k && "error" !in results[i].1
    ensures forall e :: e in Errors(results) <==>
              exists i :: 0 <= i < |results| && "error" in results[i].1 && e == ErrorLine(results[i].0, results[i].1)
  {
    if results != [] {
      var n := |results| - 1;
      var init := results[..n];
      SummaryPartition(init);
      forall k ensures k in Successes(results) <==> exists i :: 0 <= i < |results| && results[i].0 == k && "error" !in results[i].1 {
        if k in Successes(init) {
          var i :| 0 <= i < |init| && init[i].0 == k && "error" !in init[i].1;
          assert results[i] == init[i];
        }
        if exists i :: 0 <= i < |results| && results[i].0 == k && "error" !in results[i].1 {
          var i :| 0 <= i < |results| && results[i].0 == k && "error" !in results[i].1;
          if i < n {
            assert init[i] == results[i];
          }
        }
      }
      forall e ensures e in Errors(results) <==>
                 exists i :: 0 <= i < |results| && "error" in results[i].1 && e == ErrorLine(results[i].0, results[i].1) {
        if e in Errors(init) {
          var i :| 0 <= i < |init| && "error" in init[i].1 && e == ErrorLine(init[i].0, init[i].1);
          assert results[i] == init[i];
        }
        if exists i :: 0 <= i < |results| && "error" in results[i].1 && e == ErrorLine(results[i].0, results[i].1) {
          var i :| 0 <= i < |results| && "error" in results[i].1 && e == ErrorLine(results[i].0, results[i].1);
          if i < n {
            assert init[i] == results[i];
          }
        }
      }
    }
  }

  /** The loop over `results.items()`. */
  method Summarize(results: Dict<Fields>) returns (success: seq<string>, errors: seq<string>)
    ensures success == Successes(results) && errors == Errors(results)
  {
    success, errors := [], [];
    for i := 0 to |results|
      invariant success == Successes(results[..i]) && errors == Errors(results[..i])
    {
      var (platform, result) := results[i];
      if "error" in result {
        errors := errors + [platform + ": " + result["error"]];
      } else {
        success := success + [platform];
      }
      assert results[..i + 1][..i] == results[..i];
    }
    assert results[..|results|] == results;
  }

  /** The posted text: the `text` field (empty when absent), stripped. */
  function PostedText(form: Form): string {
    Strip(form.text.GetOr(""))
  }

  /** The `link` field is present and non-empty. */
  predicate HasLink(form: Form) {
    form.link.Some? && form.link.value != ""
  }

  /** `post()`. The text is checked before the platforms. An image field, if
      present, decides alone: with an empty file name nothing is posted at
      all, even when a link was given. Otherwise a non-empty link makes a
      link post, and anything else a text post. A failure to save or open
      the image reaches the outer `except` and becomes `{'error': ...}`. */
  method Post(poster: Poster, form: Form, preview: nat -> Outcome<Preview>, thumb: nat -> Outcome<Bytes>,
              reply: (nat, nat) -> Outcome<Fields>)
    returns (response: Response, calls: seq<Call>)
    ensures PostedText(form) == "" ==> response == Failure(NO_TEXT) && calls == []
    ensures PostedText(form) != "" && form.platforms == [] ==> response == Failure(NO_PLATFORMS) && calls == []
    ensures PostedText(form) != "" && form.platforms != [] && form.image.Some? ==>
              var upload := form.image.value;
              && (upload.filename == "" ==> response == Summary([], []) && calls == [])
              && (upload.filename != "" && upload.saved.Raise? ==> response == Failure(upload.saved.msg) && calls == [])
              && (upload.filename != "" && upload.saved.Ok? && upload.picture.Raise? ==>
                    response == Failure(upload.picture.msg) && calls == [])
              && (upload.filename != "" && upload.saved.Ok? && upload.picture.Ok? ==>
                    var pic := upload.picture.value;
                    var steps := ImageSteps(poster.clients, form.platforms, PostedText(form),
                                            FirstFit(pic.encode, MAX_SIZE_KB, 95), "", pic.width, pic.height,
                                            MimeType(upload.guess), reply);
                    response == Summary(Successes(Fill(steps)), Errors(Fill(steps))) && calls == Trace(steps))
    ensures PostedText(form) != "" && form.platforms != [] && form.image.None? && HasLink(form) ==>
              var steps := LinkSteps(poster.clients, form.platforms, PostedText(form), form.link.value,
                                     preview, thumb, reply);
              response == Summary(Successes(Fill(steps)), Errors(Fill(steps))) && calls == Trace(steps)
    ensures PostedText(form) != "" && form.platforms != [] && form.image.None? && !HasLink(form) ==>
              var steps := TextSteps(poster.clients, form.platforms, PostedText(form), reply);
              response == Summary(Successes(Fill(steps)), Errors(Fill(steps))) && calls == Trace(steps)
  {
    var text := Strip(form.text.GetOr(""));
    if text == "" {
      return Failure(NO_TEXT), [];
    }
    var platforms := form.platforms;
    if platforms == [] {
      return Failure(NO_PLATFORMS), [];
    }
    var results: Dict<Fields> := [];
    calls := [];
    if form.image.Some? {
      var upload := form.image.value;
      if upload.filename != "" {
        if upload.saved.Raise? {
          return Failure(upload.saved.msg), [];
        }
        var posted;
        posted, calls := poster.PostImage(text, upload.picture, "", Some(platforms), upload.guess, reply);
        if posted.Raise? {
          return Failure(posted.msg), calls;
        }
        results := posted.value;
      }
    } else if form.link.Some? && form.link.value != "" {
      results, calls := poster.PostLink(text, form.link.value, Some(platforms), preview, thumb, reply);
    } else {
      results, calls := poster.PostText(text, Some(platforms), reply);
    }
    var success, errors := Summarize(results);
    response := Summary(success, errors);
  }

  /** End to end: a selected platform without a client is reported in
      `errors` as `name: 'name'` by a text post. */
  lemma TextPostReportsMissingClient(clients: Dict<Client>, platforms: seq<string>, text: string,
                                     reply: (nat, nat) -> Outcome<Fields>, p: string)
    requires p in KNOWN && p in platforms && Get(clients, p).None?
    ensures p + ": " + KeyErrorText(p) in Errors(Fill(TextSteps(clients, platforms, text, reply)))
    ensures p !in Successes(Fill(TextSteps(clients, platforms, text, reply)))
  {
    var results := Fill(TextSteps(clients, platforms, text, reply));
    PostTextMissingClient(clients, platforms, text, reply, p);
    FillLookup(TextSteps(clients, platforms, text, reply));
    GetIndex(results, p);
    SummaryPartition(results);
    var i :| 0 <= i < |results| && results[i].0 == p && results[i].1 == ErrorEntry(KeyErrorText(p));
    assert "error" in results[i].1;
    assert ErrorLine(results[i].0, results[i].1) in Errors(results);
    if p in Successes(results) {
      var j :| 0 <= j < |results| && results[j].0 == p && "error" !in results[j].1;
      assert Keys(results)[i] == Keys(results)[j] by {
        KeysIndex(results, i);
        KeysIndex(results, j);
      }
    }
  }
}
