/** The body of the application script: which service is called, with
    which arguments, and what ends up on the page, for one press of the
    button. The three services are parameters whose answers are arbitrary. */
module Script {
  import opened Wrappers
  import opened PyStrings
  import opened VideoUrl
  import opened Prompts
  import opened Transcript
  import opened LanguageTable

  /** A call into one of the three services. */
  datatype Call =
    | FetchTranscript(videoId: string)
    | Generate(request: string)
    | Translate(text: string, dest: string)

  /** What the page shows below the inputs. */
  datatype Screen =
    | Blank                       // no link entered
    | InvalidUrl                  // "Invalid YouTube URL."
    | Selection(videoId: string)  // thumbnail and select boxes, no notes
    | FetchFailed(error: string)  // the transcript service's error message
    | Notes(text: string)         // the summarised notes and their download

  datatype Run = Run(calls: seq<Call>, screen: Screen)

  /** Python's truth value of an optional string. */
  predicate Truthy(s: Option<string>)
    ensures Truthy(s) <==> s != None && s != Some("")
  {
    s.Some? && s.value != ""
  }

  /** One run of the script for a link, the two selections and the button,
      against the given transcript, generation and translation services. */
  function RunScript(link: string, difficulty: string, target: string, pressed: bool,
                     fetch: string -> Result<seq<Segment>, string>,
                     generate: string -> string,
                     translate: (string, string) -> string): (run: Run)
    requires target in Languages
    ensures |run.calls| <= 3
    ensures run.screen == Blank <==> link == ""
    ensures run.screen == InvalidUrl <==> link != "" && !Truthy(ExtractVideoId(link))
    ensures |run.calls| >= 1 <==> link != "" && Truthy(ExtractVideoId(link)) && pressed
    ensures |run.calls| >= 1 ==>
              run.calls[0] == FetchTranscript(ExtractVideoId(link).value)
    ensures |run.calls| >= 2 <==>
              |run.calls| >= 1 && fetch(run.calls[0].videoId).Success?
              && TranscriptText(fetch(run.calls[0].videoId).value) != ""
    ensures |run.calls| >= 2 ==>
              run.calls[1] == Generate(DifficultyPrompt(difficulty)
                                       + TranscriptText(fetch(run.calls[0].videoId).value))
    ensures |run.calls| >= 3 <==> |run.calls| >= 2 && generate(run.calls[1].request) != ""
    ensures |run.calls| >= 3 ==>
              run.calls[2] == Translate(generate(run.calls[1].request), Languages[target])
    ensures run.screen.FetchFailed? <==>
              |run.calls| == 1 && fetch(run.calls[0].videoId).Failure?
    ensures run.screen.FetchFailed? ==> run.screen.error == fetch(run.calls[0].videoId).error
    ensures run.screen.Selection? ==>
              link != "" && Truthy(ExtractVideoId(link))
              && run.screen.videoId == ExtractVideoId(link).value
    ensures run.screen.Notes? <==> |run.calls| == 3
    ensures run.screen.Notes? ==>
              run.screen.text == translate(run.calls[2].text, run.calls[2].dest)
  {
    if link == "" then Run([], Blank)
    else
      var videoId := ExtractVideoId(link);
      if !Truthy(videoId) then Run([], InvalidUrl)
      else
        var id := videoId.value;
        if !pressed then Run([], Selection(id))
        else
          match fetch(id)
          case Failure(e) => Run([FetchTranscript(id)], FetchFailed(e))
          case Success(segments) =>
            var transcript := TranscriptText(segments);
            if transcript == "" then Run([FetchTranscript(id)], Selection(id))
            else
              var request := DifficultyPrompt(difficulty) + transcript;
              var summary := generate(request);
              if summary == "" then Run([FetchTranscript(id), Generate(request)], Selection(id))
              else
                var code := Languages[target];
                Run([FetchTranscript(id), Generate(request), Translate(summary, code)],
                    Notes(translate(summary, code)))
  }

  /** A link with neither URL shape shows "Invalid YouTube URL." and calls
      no service. */
  lemma InvalidUrlExample(difficulty: string, target: string, pressed: bool,
                          fetch: string -> Result<seq<Segment>, string>,
                          generate: string -> string,
                          translate: (string, string) -> string)
    requires target in Languages
    ensures var run := RunScript("https://vimeo.com/12345", difficulty, target, pressed,
                                 fetch, generate, translate);
            run.calls == [] && run.screen == InvalidUrl
  {
    NoMarkerExample();
  }

  /** Any non-empty link with neither URL shape shows "Invalid YouTube URL."
      and calls no service. */
  lemma NoMarkerRun(link: string, difficulty: string, target: string, pressed: bool,
                    fetch: string -> Result<seq<Segment>, string>,
                    generate: string -> string,
                    translate: (string, string) -> string)
    requires target in Languages
    requires link != ""
    requires !Contains(link, WatchMarker) && !Contains(link, ShortMarker)
    ensures var run := RunScript(link, difficulty, target, pressed, fetch, generate, translate);
            run.calls == [] && run.screen == InvalidUrl
  {
    NoMarker(link);
  }

  /** A transcript failure stops the run: neither generation nor
      translation is called, and the service's message is shown. */
  lemma FetchFailureHalts(link: string, difficulty: string, target: string,
                          fetch: string -> Result<seq<Segment>, string>,
                          generate: string -> string,
                          translate: (string, string) -> string)
    requires target in Languages
    requires Truthy(ExtractVideoId(link))
    requires fetch(ExtractVideoId(link).value).Failure?
    ensures var run := RunScript(link, difficulty, target, true, fetch, generate, translate);
            && run.calls == [FetchTranscript(ExtractVideoId(link).value)]
            && run.screen == FetchFailed(fetch(ExtractVideoId(link).value).error)
  {
  }

  /** With French selected, the translator is asked for exactly `fr`. */
  lemma FrenchTranslation(link: string, difficulty: string, pressed: bool,
                          fetch: string -> Result<seq<Segment>, string>,
                          generate: string -> string,
                          translate: (string, string) -> string)
    ensures var run := RunScript(link, difficulty, "French", pressed, fetch, generate, translate);
            |run.calls| == 3 ==> run.calls[2].dest == "fr"
  {
  }

  /** The whole pipeline for the sample watch URL: the transcript of
      `abc123` is fetched, summarised with the chosen prompt, translated and
      shown. */
  lemma WatchUrlRun(difficulty: string, target: string,
                    fetch: string -> Result<seq<Segment>, string>,
                    generate: string -> string,
                    translate: (string, string) -> string)
    requires target in Languages
    requires fetch("abc123").Success? && TranscriptText(fetch("abc123").value) != ""
    requires generate(DifficultyPrompt(difficulty) + TranscriptText(fetch("abc123").value)) != ""
    ensures var run := RunScript("https://www.youtube.com/watch?v=abc123&t=5s", difficulty,
                                 target, true, fetch, generate, translate);
            var request := DifficultyPrompt(difficulty) + TranscriptText(fetch("abc123").value);
            var summary := generate(request);
            && run.calls == [FetchTranscript("abc123"), Generate(request),
                             Translate(summary, Languages[target])]
            && run.screen == Notes(translate(summary, Languages[target]))
  {
    WatchExample();
  }
}
