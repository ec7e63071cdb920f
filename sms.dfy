/**
 * The text-message command of the `/sms` handler (`smsHandler` in
 * cmd/textarr/main.go): trim the body, recognise the `request` keyword
 * case-insensitively, take the title after it, route to the movie manager
 * when the message mentions `movies:`, and answer with one of five fixed
 * texts inside the `<Response><Message>…</Message></Response>` envelope.
 * Whether the add succeeded is an input (`addMovie`, `addShow`).
 */
module Sms {
  import opened Wrappers
  import opened Strings
  import opened Upstream

  const Keyword := "request"
  const MovieMarker := "movies:"
  /** The help answer, "Use: Request <title> or Request movie: <title>", in two literal pieces. */
  const UsageText := "Use: Request <title>" + " or Request movie: <title>"
  const EnvelopeOpen := "<Response><Message>"
  const EnvelopeClose := "</Message></Response>"

  /** A parsed message: the help answer, or an add of `title` at one manager. */
  datatype Command = Usage | Add(target: Kind, title: string)

  /**
   * The parse performed by the handler. The keyword test is on the trimmed
   * body; the title keeps any `movies:` token.
   */
  function ParseCommand(body: string): (c: Command)
    ensures c.Usage? <==> !HasPrefix(ToLower(TrimSpace(body)), Keyword)
    ensures c.Add? ==> IsTrimmed(c.title)
  {
    var message := TrimSpace(body);
    if HasPrefix(ToLower(message), Keyword) then
      var title := TrimSpace(message[7..]);
      if Contains(ToLower(message), MovieMarker) then Add(Movie, title) else Add(Series, title)
    else
      Usage
  }

  /** What an add command holds: the trimmed remainder after the keyword, and the route. */
  lemma AddCommandParts(body: string)
    requires ParseCommand(body).Add?
    ensures var message := TrimSpace(body);
      && |message| >= 7
      && HasPrefix(ToLower(message), Keyword)
      && ParseCommand(body).title == TrimSpace(message[7..])
      && (ParseCommand(body).target == Movie <==> Contains(ToLower(message), MovieMarker))
  {
  }

  /**
   * An add command splits the trimmed body into the keyword (in any case),
   * white space, the title, and white space.
   */
  lemma AddCommandShape(body: string) returns (keyword: string, before: string, after: string)
    requires ParseCommand(body).Add?
    ensures ToLower(keyword) == Keyword && AllSpace(before) && AllSpace(after)
    ensures TrimSpace(body) == keyword + before + ParseCommand(body).title + after
  {
    AddCommandParts(body);
    var message := TrimSpace(body);
    keyword := message[..7];
    ToLowerSlice(message, 0, 7);
    before, after := TrimSpaceSplit(message[7..]);
    assert message == keyword + message[7..];
    ConcatAssoc(keyword, before, ParseCommand(body).title, after);
  }

  /** `movies:` cannot overlap the keyword at the front of a request. */
  lemma MarkerAfterKeyword(lower: string, i: int)
    requires HasPrefix(lower, Keyword) && OccursAt(lower, MovieMarker, i)
    ensures i >= 7
  {
    var window, front := lower[i..i + 7], lower[..7];
    assert window == MovieMarker && front == Keyword;
    assert lower[i] == window[0] == 'm';
    forall j | 0 <= j < 7
      ensures lower[j] != 'm'
    {
      assert lower[j] == front[j] == Keyword[j];
    }
  }

  /** A rune that lower-cases to a letter or a colon is not white space. */
  lemma MarkerRuneNotSpace(c: char)
    requires ToLowerChar(c) == 'm' || ToLowerChar(c) == ':'
    ensures !IsSpace(c)
  {
  }

  /** The runes under an occurrence of `movies:` are not white space. */
  lemma MarkerRunesNotSpace(s: string, i: int)
    requires OccursAt(ToLower(s), MovieMarker, i)
    ensures !IsSpace(s[i]) && !IsSpace(s[i + 6])
  {
    var window := ToLower(s)[i..i + 7];
    assert window == MovieMarker;
    assert window[0] == 'm' && window[6] == ':';
    assert ToLowerChar(s[i]) == 'm';
    assert ToLowerChar(s[i + 6]) == ':';
    MarkerRuneNotSpace(s[i]);
    MarkerRuneNotSpace(s[i + 6]);
  }

  /** An occurrence of `movies:` in the trimmed title is one in the whole message. */
  lemma MarkerFromTitle(message: string, i: int)
    requires |message| >= 7
    requires OccursAt(ToLower(TrimSpace(message[7..])), MovieMarker, i)
    ensures OccursAt(ToLower(message), MovieMarker, 7 + TrimOffset(message[7..]) + i)
  {
    var rest := message[7..];
    var a := TrimOffset(rest);
    OccursThroughTrim(rest, MovieMarker, i);
    assert OccursAt(ToLower(rest), MovieMarker, a + i);
    OccursInLowerSuffix(message, 7, MovieMarker, a + i);
  }

  /** An occurrence of `movies:` in a request lies inside its trimmed title. */
  lemma MarkerToTitle(message: string, i: int)
    requires HasPrefix(ToLower(message), Keyword)
    requires OccursAt(ToLower(message), MovieMarker, i)
    ensures 7 + TrimOffset(message[7..]) <= i
    ensures OccursAt(ToLower(TrimSpace(message[7..])), MovieMarker, i - 7 - TrimOffset(message[7..]))
  {
    var rest := message[7..];
    MarkerAfterKeyword(ToLower(message), i);
    OccursInLowerSuffix(message, 7, MovieMarker, i - 7);
    MarkerRunesNotSpace(rest, i - 7);
    OccursInsideTrim(rest, MovieMarker, i - 7);
  }

  /**
   * In a message that starts with the keyword, `movies:` occurs exactly when
   * it occurs in the trimmed remainder: it cannot overlap the keyword, and
   * trimming never cuts into it.
   */
  lemma MarkerInRemainder(message: string)
    requires HasPrefix(ToLower(message), Keyword)
    ensures Contains(ToLower(message), MovieMarker) <==> Contains(ToLower(TrimSpace(message[7..])), MovieMarker)
  {
    var title := ToLower(TrimSpace(message[7..]));
    if Contains(title, MovieMarker) {
      var i :| OccursAt(title, MovieMarker, i);
      MarkerFromTitle(message, i);
    }
    if Contains(ToLower(message), MovieMarker) {
      var i :| OccursAt(ToLower(message), MovieMarker, i);
      MarkerToTitle(message, i);
    }
  }

  /**
   * The message goes to the movie manager exactly when its title mentions
   * `movies:` (in any case).
   */
  lemma MovieIffTitleHasMarker(body: string)
    requires ParseCommand(body).Add?
    ensures ParseCommand(body).target == Movie <==> Contains(ToLower(ParseCommand(body).title), MovieMarker)
  {
    AddCommandParts(body);
    MarkerInRemainder(TrimSpace(body));
  }

  /** The text before the title in each of the four add answers. */
  function Lead(k: Kind, added: bool): string {
    match k
    case Movie => if added then "Movie '" else "Could not find movie '"
    case Series => if added then "Show '" else "Could not find show '"
  }

  /** The text after the title in each of the four add answers. */
  function Tail(k: Kind, added: bool): string {
    match k
    case Movie => if added then "' added!" else "'"
    case Series => if added then "' added" else "'"
  }

  /**
   * The answer to an add, the source's four `Sprintf` formats with the title
   * in place of `%s`: "Movie '%s' added!", "Could not find movie '%s'",
   * "Show '%s' added", "Could not find show '%s'".
   */
  function ReplyText(k: Kind, title: string, added: bool): (r: string)
    ensures k == Movie && added ==> r == "Movie '" + title + "' added!"
    ensures k == Movie && !added ==> r == "Could not find movie '" + title + "'"
    ensures k == Series && added ==> r == "Show '" + title + "' added"
    ensures k == Series && !added ==> r == "Could not find show '" + title + "'"
  {
    Lead(k, added) + title + Tail(k, added)
  }

  /**
   * The handler's `responseText`: the usage text for anything but a request;
   * otherwise the reply for the chosen manager and what its add returned.
   */
  function ResponseText(body: string, addMovie: string -> bool, addShow: string -> bool): (r: string)
    ensures ParseCommand(body).Usage? <==> r == UsageText
    ensures var c := ParseCommand(body);
      c.Add? ==> r == ReplyText(c.target, c.title, if c.target == Movie then addMovie(c.title) else addShow(c.title))
  {
    match ParseCommand(body)
    case Usage => UsageText
    case Add(Movie, title) =>
      ReplyTextDistinguishes(Movie, title, addMovie(title), Movie, title, addMovie(title));
      ReplyText(Movie, title, addMovie(title))
    case Add(Series, title) =>
      ReplyTextDistinguishes(Series, title, addShow(title), Series, title, addShow(title));
      ReplyText(Series, title, addShow(title))
  }

  /** The XML the handler writes, with the text interpolated unescaped. */
  function Envelope(text: string): (r: string)
    ensures HasPrefix(r, EnvelopeOpen) && HasSuffix(r, EnvelopeClose)
    ensures |r| == |EnvelopeOpen| + |text| + |EnvelopeClose|
    ensures r[|EnvelopeOpen|..|r| - |EnvelopeClose|] == text
  {
    EnvelopeOpen + text + EnvelopeClose
  }

  /** Reads the message text back out of a response body. */
  function Unwrap(response: string): Option<string> {
    if |EnvelopeOpen| + |EnvelopeClose| <= |response|
       && HasPrefix(response, EnvelopeOpen) && HasSuffix(response, EnvelopeClose)
    then Some(response[|EnvelopeOpen|..|response| - |EnvelopeClose|])
    else None
  }

  /** The envelope holds the text verbatim: reading it back gives the text itself. */
  lemma EnvelopeRoundTrip(text: string)
    ensures Unwrap(Envelope(text)) == Some(text)
  {
    var r := Envelope(text);
    assert r[..|EnvelopeOpen|] == EnvelopeOpen;
    assert r[|r| - |EnvelopeClose|..] == EnvelopeClose;
    assert r[|EnvelopeOpen|..|r| - |EnvelopeClose|] == text;
  }

  /** The body written back for an inbound message. */
  function Respond(body: string, addMovie: string -> bool, addShow: string -> bool): (r: string)
    ensures Unwrap(r) == Some(ResponseText(body, addMovie, addShow))
  {
    EnvelopeRoundTrip(ResponseText(body, addMovie, addShow));
    Envelope(ResponseText(body, addMovie, addShow))
  }

  /** The parsed form values of a request (Go's `url.Values`). */
  type Form = map<string, seq<string>>

  /** Go's `url.Values.Get`: the first value under `key`, or "" when there is none. */
  function FormGet(form: Form, key: string): (v: string)
    ensures key in form && form[key] != [] ==> v == form[key][0]
    ensures key !in form || form[key] == [] ==> v == ""
  {
    if key in form && form[key] != [] then form[key][0] else ""
  }

  /** What the handler writes back: a status code, a `Content-Type` and a body. */
  datatype Reply = Reply(status: int, contentType: string, body: string)

  /** What `http.Error(w, "Bad Requests:", http.StatusBadRequest)` writes. */
  const BadRequest := Reply(400, "text/plain; charset=utf-8", "Bad Requests:\n")

  /**
   * The whole `/sms` handler: `None` stands for a form that `ParseForm`
   * rejected; otherwise the `Body` field is answered with status 200 and an
   * XML envelope.
   */
  function Handle(form: Option<Form>, addMovie: string -> bool, addShow: string -> bool): (r: Reply)
    ensures form.None? ==> r == BadRequest
    ensures form.Some? ==> && r.status == 200 && r.contentType == "application/xml"
                           && Unwrap(r.body) == Some(ResponseText(FormGet(form.value, "Body"), addMovie, addShow))
  {
    match form
    case None => BadRequest
    case Some(values) =>
      var body := FormGet(values, "Body");
      EnvelopeRoundTrip(ResponseText(body, addMovie, addShow));
      Reply(200, "application/xml", Respond(body, addMovie, addShow))
  }

  /** A message that is not a request gets the usage text, whatever the managers would say. */
  lemma NonRequestGetsUsage(body: string, addMovie: string -> bool, addShow: string -> bool)
    requires !HasPrefix(ToLower(TrimSpace(body)), Keyword)
    ensures Respond(body, addMovie, addShow) == Envelope(UsageText)
  {
  }

  /** The last rune of each possible answer. */
  lemma LastRunes(k: Kind, title: string, added: bool)
    ensures var r := ReplyText(k, title, added);
      r != [] && r[|r| - 1] == (if k == Movie && added then '!' else if added then 'd' else '\'')
    ensures UsageText[|UsageText| - 1] == '>'
  {
    var r, t := ReplyText(k, title, added), Tail(k, added);
    assert r[|r| - 1] == t[|t| - 1];
  }

  /** The answer ends in `!` exactly for a movie that was added. */
  lemma ExclamationOnlyForAddedMovie(body: string, addMovie: string -> bool, addShow: string -> bool)
    ensures var c := ParseCommand(body);
      HasSuffix(ResponseText(body, addMovie, addShow), "!") <==> c.Add? && c.target == Movie && addMovie(c.title)
  {
    var c := ParseCommand(body);
    var r := ResponseText(body, addMovie, addShow);
    if c.Add? {
      LastRunes(c.target, c.title, if c.target == Movie then addMovie(c.title) else addShow(c.title));
    } else {
      LastRunes(Movie, "", true);
    }
    LastRuneSuffix(r, '!');
  }

  /** Equal strings with equal surroundings have equal middles. */
  lemma SameMiddle(lead: string, t: string, t': string, tail: string)
    requires lead + t + tail == lead + t' + tail
    ensures t == t'
  {
    var r := lead + t + tail;
    assert |t| == |t'|;
    assert t == r[|lead|..|lead| + |t|];
  }

  /**
   * Different outcomes give different answers: the answer determines the
   * manager, the title and whether the add succeeded, and is never the usage text.
   */
  lemma ReplyTextDistinguishes(k: Kind, t: string, added: bool, k': Kind, t': string, added': bool)
    ensures ReplyText(k, t, added) != UsageText
    ensures ReplyText(k, t, added) == ReplyText(k', t', added') ==> k == k' && t == t' && added == added'
  {
    var lead, lead' := Lead(k, added), Lead(k', added');
    var r, r' := ReplyText(k, t, added), ReplyText(k', t', added');
    assert r[0] == lead[0] && r'[0] == lead'[0];
    assert UsageText[0] == 'U';
    if r == r' {
      if lead[0] == 'C' {
        assert r[15] == lead[15] && r'[15] == lead'[15];
      }
      assert lead == lead';
      assert k == k' && added == added';
      SameMiddle(lead, t, t', Tail(k, added));
    }
  }

  /** A movie request never consults the series manager, and a series request never the movie manager. */
  lemma OnlyChosenManagerConsulted(body: string, addMovie: string -> bool, addShow: string -> bool,
                                   addMovie': string -> bool, addShow': string -> bool)
    requires ParseCommand(body).Add?
    requires var c := ParseCommand(body);
      if c.target == Movie then addMovie(c.title) == addMovie'(c.title) else addShow(c.title) == addShow'(c.title)
    ensures Respond(body, addMovie, addShow) == Respond(body, addMovie', addShow')
  {
  }

  /** White space around the message never changes the parse. */
  lemma ParseIgnoresOuterSpace(body: string)
    ensures ParseCommand(TrimSpace(body)) == ParseCommand(body)
  {
    TrimSpaceIdempotent(body);
  }

  /** The parse of a trimmed message that starts with the keyword. */
  lemma ParseTrimmedRequest(m: string, title: string)
    requires IsTrimmed(m) && HasPrefix(ToLower(m), Keyword) && TrimSpace(m[7..]) == title
    ensures ParseCommand(m) == Add(if Contains(ToLower(title), MovieMarker) then Movie else Series, title)
  {
    TrimSpaceFixedPoint(m);
    MarkerInRemainder(m);
  }

  /**
   * The converse of `AddCommandShape`: a message made of the keyword in any
   * case, white space, then a non-empty trimmed title parses as an add of
   * that title, at the movie manager exactly when the title mentions `movies:`.
   */
  lemma ParseRequest(message: string, keyword: string, gap: string, title: string)
    requires message == keyword + gap + title
    requires ToLower(keyword) == Keyword && AllSpace(gap) && title != [] && IsTrimmed(title)
    ensures ParseCommand(message) ==
      Add(if Contains(ToLower(title), MovieMarker) then Movie else Series, title)
  {
    var m := message;
    assert |keyword| == 7;
    assert m == keyword + (gap + title);
    ConcatSlices(keyword, gap + title);
    assert IsTrimmed(m) by { assert m[0] == keyword[0] && m[|m| - 1] == title[|title| - 1]; }
    ToLowerSlice(m, 0, 7);
    assert HasPrefix(ToLower(m), Keyword);
    TrimSpaceLeftPadded(gap, title);
    ParseTrimmedRequest(m, title);
  }

  /** The pieces of "Request Foo". */
  lemma SeriesExampleParts()
    ensures ToLower("Request") == Keyword && AllSpace(" ") && IsTrimmed("Foo")
    ensures !Contains(ToLower("Foo"), MovieMarker)
  {
    ContainsNothingLonger(ToLower("Foo"), MovieMarker);
  }

  /** "Request Foo" adds the series "Foo". */
  lemma ParseSeriesExample()
    ensures ParseCommand("Request Foo") == Add(Series, "Foo")
  {
    SeriesExampleParts();
    ParseRequest("Request Foo", "Request", " ", "Foo");
  }

  /** The pieces of "Request movies: Foo". */
  lemma MovieExampleParts()
    ensures ToLower("Request") == Keyword && AllSpace(" ") && IsTrimmed("movies: Foo")
    ensures Contains(ToLower("movies: Foo"), MovieMarker)
  {
    var t := MovieMarker + " Foo";
    ToLowerConcat(MovieMarker, " Foo");
    assert ToLower(MovieMarker) == MovieMarker;
    assert ToLower(t)[..7] == MovieMarker;
    assert OccursAt(ToLower(t), MovieMarker, 0);
    assert t == "movies: Foo";
  }

  /** "Request movies: Foo" adds the movie titled "movies: Foo": the marker stays in the title. */
  lemma ParseMovieExample()
    ensures ParseCommand("Request movies: Foo") == Add(Movie, "movies: Foo")
  {
    MovieExampleParts();
    assert "Request movies: Foo" == "Request" + " " + "movies: Foo";
    ParseRequest("Request movies: Foo", "Request", " ", "movies: Foo");
  }

  /** The pieces of "Request MOV\U{0130}ES: X": the dotted capital I folds to `i`. */
  lemma DottedCapitalIParts()
    ensures ToLower("Request") == Keyword && AllSpace(" ") && IsTrimmed("MOV\U{0130}ES: X")
    ensures Contains(ToLower("MOV\U{0130}ES: X"), MovieMarker)
  {
    var lt := ToLower("MOV\U{0130}ES: X");
    assert lt[..7] == MovieMarker;
    assert OccursAt(lt, MovieMarker, 0);
  }

  /** "Request MOV\U{0130}ES: X" goes to the movie manager, as Go's folding of U+0130 to `i` makes it. */
  lemma DottedCapitalIRoutesToMovies()
    ensures ParseCommand("Request MOV\U{0130}ES: X") == Add(Movie, "MOV\U{0130}ES: X")
  {
    DottedCapitalIParts();
    assert "Request MOV\U{0130}ES: X" == "Request" + " " + "MOV\U{0130}ES: X";
    ParseRequest("Request MOV\U{0130}ES: X", "Request", " ", "MOV\U{0130}ES: X");
  }

  /** The pieces of "Request movie: Dune": the singular `movie:` is not the marker. */
  lemma UsageFormParts()
    ensures ToLower("Request") == Keyword && AllSpace(" ") && IsTrimmed("movie: Dune")
    ensures !Contains(ToLower("movie: Dune"), MovieMarker)
  {
    var lt := ToLower("movie: Dune");
    assert lt == "movie: dune";
    forall i | 0 <= i <= |lt|
      ensures !OccursAt(lt, MovieMarker, i)
    {
      if i == 0 {
        assert lt[5] != MovieMarker[5];
      } else if i + 7 <= |lt| {
        assert lt[i] != MovieMarker[0];
      }
    }
  }

  /** The usage text's own form, "Request movie: X", goes to the series manager. */
  lemma UsageFormGoesToSeries()
    ensures ParseCommand("Request movie: Dune") == Add(Series, "movie: Dune")
  {
    UsageFormParts();
    ParseRequest("Request movie: Dune", "Request", " ", "movie: Dune");
  }
}
