/** A watched file: the last valid parse survives every failed reload. */
module FileSource {
  import opened Options

  /** What a parse says, given the last valid value. */
  datatype Parsing<T> = Good(value: T) | Bad(reason: string, diagnostic: string)

  type Parse<!T> = (T, string) -> Parsing<T>

  /** A read that fails never reaches the parse. */
  datatype Read = Document(text: string) | Unreadable(diagnostic: string)

  const READ_FAILED := "read_failed"

  datatype Source<T> = Source(value: T, loaded: bool, stale: bool, failure: Option<string>, lastErr: string)

  function Parsed<T>(parse: Parse<T>, value: T, read: Read): Parsing<T> {
    match read
    case Document(text) => parse(value, text)
    case Unreadable(diagnostic) => Bad(READ_FAILED, diagnostic)
  }

  function Reloaded<T>(parse: Parse<T>, s: Source<T>, read: Read): Source<T> {
    match Parsed(parse, s.value, read)
    case Good(value) => Source(value, true, false, None, "")
    case Bad(reason, diagnostic) => Source(s.value, s.loaded, s.loaded, Some(reason), reason + ": " + diagnostic)
  }

  function After<T>(parse: Parse<T>, zero: T, history: seq<Read>): Source<T> {
    if history == [] then Source(zero, false, false, None, "")
    else Reloaded(parse, After(parse, zero, history[..|history| - 1]), history[|history| - 1])
  }

  /** The values the file has published, one for each reload that parsed. */
  function Published<T>(parse: Parse<T>, zero: T, history: seq<Read>): seq<T> {
    if history == [] then []
    else
      var before := Published(parse, zero, history[..|history| - 1]);
      match Parsed(parse, Latest(before, zero), history[|history| - 1])
      case Good(value) => before + [value]
      case Bad(_, _) => before
  }

  function Latest<T>(published: seq<T>, zero: T): T { if published == [] then zero else published[|published| - 1] }

  predicate FailedLast<T>(parse: Parse<T>, zero: T, history: seq<Read>) {
    history != [] && Parsed(parse, Latest(Published(parse, zero, history[..|history| - 1]), zero), history[|history| - 1]).Bad?
  }

  /** Whatever reads fail: the value is the last published one, stale exactly when the last reload failed over one. */
  lemma {:induction false} LastGoodSurvives<T>(parse: Parse<T>, zero: T, history: seq<Read>)
    ensures var s, published := After(parse, zero, history), Published(parse, zero, history);
            && s.value == Latest(published, zero)
            && (s.loaded <==> published != [])
            && (s.failure.Some? <==> FailedLast(parse, zero, history))
            && (s.stale <==> s.loaded && s.failure.Some?)
            && (s.lastErr != "" ==> s.failure.Some?)
            && (FailedLast(parse, zero, history) ==>
                  var last, was := history[|history| - 1], Latest(Published(parse, zero, history[..|history| - 1]), zero);
                  match last
                  case Unreadable(diagnostic) => s.failure == Some("read_failed") && s.lastErr == "read_failed: " + diagnostic
                  case Document(text) =>
                    s.failure == Some(parse(was, text).reason) && s.lastErr == parse(was, text).reason + ": " + parse(was, text).diagnostic)
  {
    if history != [] {
      LastGoodSurvives(parse, zero, history[..|history| - 1]);
    }
  }

  class Watcher<T> {
    const parse: Parse<T>
    var value: T
    var loaded: bool
    var stale: bool
    var failure: Option<string>
    var lastErr: string
    var notices: nat // loads announced to subscribers

    ghost function Contents(): Source<T>
      reads this
    {
      Source(value, loaded, stale, failure, lastErr)
    }

    constructor (parse: Parse<T>, zero: T)
      ensures this.parse == parse && Contents() == After(parse, zero, []) && notices == 0
    {
      this.parse := parse;
      value, loaded, stale, failure, lastErr, notices := zero, false, false, None, "", 0;
    }

    method RecordFailure(reason: string, diagnostic: string)
      modifies this
      ensures Contents() == Source(old(value), old(loaded), old(loaded), Some(reason), reason + ": " + diagnostic)
      ensures notices == old(notices)
    {
      stale := loaded;
      failure := Some(reason);
      lastErr := reason + ": " + diagnostic;
    }

    method Reload(read: Read)
      modifies this
      ensures Contents() == Reloaded(parse, old(Contents()), read)
      ensures notices == old(notices) + if Parsed(parse, old(value), read).Good? then 1 else 0
      ensures read.Document? && parse(old(value), read.text).Good? <==> notices > old(notices)
    {
      if read.Unreadable? {
        RecordFailure(READ_FAILED, read.diagnostic);
        return;
      }
      match parse(value, read.text)
      case Bad(reason, diagnostic) => RecordFailure(reason, diagnostic);
      case Good(next) =>
        value := next;
        loaded := true;
        stale := false;
        failure := None;
        lastErr := "";
        notices := notices + 1;
    }
  }
}
