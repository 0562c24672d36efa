/** Method names (section 4 of RFC 7231 and the registered extensions): which words the parser takes for which method.
    */
module HttpMethods {
  import opened Options
  import opened HttpTypes
  import opened HttpAutomaton
  import opened HttpFields

  // ---------- guesses ----------

  /** The method in view after one more letter: the guess stands, or is corrected. */
  function NextGuess(m: Method, k: nat, ch: char): Option<Method> {
    if ch == '\0' then None
    else if ch == At(MethodString(m), k) then Some(m)
    else if 'A' <= ch <= 'Z' || ch == '-' then Correct(m, k, ch)
    else None
  }

  /** The method in view at the end of a word, from method `m` in view after its first `k` letters. */
  function GuessFrom(m: Method, k: nat, w: seq<char>): Option<Method>
    decreases |w| - k
  {
    if k >= |w| then Some(m)
    else
      match NextGuess(m, k, w[k])
      case None => None
      case Some(v) => GuessFrom(v, k + 1, w)
  }

  function Guess(w: seq<char>): Option<Method>
    requires w != []
  {
    match FirstGuess(w[0]) case None => None case Some(m) => GuessFrom(m, 1, w)
  }

  lemma NotSearch()
    ensures Guess("M-SEARCH") == None
  {}

  /** The names of the methods. */
  function NameOf(m: Method): string {
    match m
    case DELETE => "DELETE" case GET => "GET" case HEAD => "HEAD"
    case POST => "POST" case PUT => "PUT" case CONNECT => "CONNECT"
    case OPTIONS => "OPTIONS" case TRACE => "TRACE" case COPY => "COPY"
    case LOCK => "LOCK" case MKCOL => "MKCOL" case MOVE => "MOVE"
    case PROPFIND => "PROPFIND" case PROPPATCH => "PROPPATCH" case SEARCH => "SEARCH"
    case UNLOCK => "UNLOCK" case BIND => "BIND" case REBIND => "REBIND"
    case UNBIND => "UNBIND" case ACL => "ACL" case REPORT => "REPORT"
    case MKACTIVITY => "MKACTIVITY" case CHECKOUT => "CHECKOUT" case MERGE => "MERGE"
    case NOTIFY => "NOTIFY" case SUBSCRIBE => "SUBSCRIBE" case UNSUBSCRIBE => "UNSUBSCRIBE"
    case PATCH => "PATCH" case PURGE => "PURGE" case MKCALENDAR => "MKCALENDAR"
    case LINK => "LINK" case UNLINK => "UNLINK" case SOURCE => "SOURCE"
    case MSEARCH => "M-SEARCH"
  }

  lemma NamesApart(m: Method)
    ensures m != MSEARCH ==> MethodString(m) == NameOf(m)
    ensures NameOf(m) != [] && |NameOf(m)| <= 11 && ' ' !in NameOf(m)
  {
    SameNames(m);
    NameLength(m);
    NoBlanks(m);
    hide NameOf, MethodString;
  }

  lemma SameNames(m: Method)
    ensures m != MSEARCH ==> MethodString(m) == NameOf(m)
  {}

  lemma NameLength(m: Method)
    ensures 0 < |NameOf(m)| <= 11
  {}

  lemma NoBlanks(m: Method)
    ensures ' ' !in NameOf(m)
  {
    hide NameOf;
    forall j | 0 <= j < |NameOf(m)| ensures NameOf(m)[j] != ' ' { NameLetters(m, j); }
  }

  lemma NameLetters(m: Method, j: nat)
    requires j < |NameOf(m)|
    ensures 'A' <= NameOf(m)[j] <= 'Z' || NameOf(m)[j] == '-'
  {}

  // ---------- how a name comes into view ----------

  /** The guess that is corrected to a method, and the letter at which it is; None for a first guess. */
  datatype Turn = Turn(from: Method, k: nat)

  function Before(m: Method): Option<Turn> {
    match m
    case PUT | PATCH | PROPFIND => Some(Turn(POST, 1))
    case PURGE => Some(Turn(PUT, 2))
    case CHECKOUT => Some(Turn(CONNECT, 1))
    case COPY => Some(Turn(CONNECT, 2))
    case MOVE | MERGE => Some(Turn(MKCOL, 1))
    case MKACTIVITY => Some(Turn(MKCOL, 2))
    case MKCALENDAR => Some(Turn(MKCOL, 3))
    case SEARCH | SOURCE => Some(Turn(SUBSCRIBE, 1))
    case REBIND => Some(Turn(REPORT, 2))
    case PROPPATCH => Some(Turn(PROPFIND, 4))
    case LINK => Some(Turn(LOCK, 1))
    case UNSUBSCRIBE | UNBIND => Some(Turn(UNLOCK, 2))
    case UNLINK => Some(Turn(UNLOCK, 3))
    case _ => None
  }

  /** How many letters bring a method into view. */
  function Entry(m: Method): nat { if Before(m).Some? then Before(m).value.k + 1 else 1 }

  lemma FirstNames(m: Method)
    requires m != MSEARCH && Before(m) == None
    ensures FirstGuess(NameOf(m)[0]) == Some(m)
  {}

  lemma TurnNames(m: Method)
    requires Before(m).Some?
    ensures var g, k := Before(m).value.from, Before(m).value.k;
            && m != MSEARCH && g != MSEARCH && Entry(g) <= k && k + 1 < |NameOf(m)| && k < |NameOf(g)|
            && 'A' <= NameOf(m)[k] <= 'Z' && NameOf(g)[k] != NameOf(m)[k]
            && Correct(g, k, NameOf(m)[k]) == Some(m)
  {}

  lemma TurnFronts(m: Method)
    requires Before(m).Some?
    ensures var g, k := Before(m).value.from, Before(m).value.k;
            k < |NameOf(m)| && k < |NameOf(g)| && forall j :: 0 <= j < k ==> NameOf(m)[j] == NameOf(g)[j]
  {}

  /** The guess stands as long as the letters are its own. */
  lemma {:induction false} Along(m: Method, j: nat, k: nat, w: seq<char>)
    requires m != MSEARCH && j <= k <= |w| && k <= |NameOf(m)| && forall i :: j <= i < k ==> w[i] == NameOf(m)[i]
    ensures GuessFrom(m, j, w) == GuessFrom(m, k, w)
    decreases k - j
  {
    hide NameOf, MethodString, Correct;
    if j < k {
      NamesApart(m);
      NameLetters(m, j);
      Along(m, j + 1, k, w);
    }
  }

  /** A word that starts as the name does has the method in view. */
  lemma {:induction false} ComesIntoView(m: Method, w: seq<char>)
    requires m != MSEARCH && Entry(m) <= |w| && Entry(m) <= |NameOf(m)|
    requires forall i :: 0 <= i < Entry(m) ==> w[i] == NameOf(m)[i]
    ensures Guess(w) == GuessFrom(m, Entry(m), w)
    decreases Entry(m)
  {
    hide NameOf, MethodString, Correct, FirstGuess, Before;
    if Before(m) == None {
      FirstNames(m);
    } else {
      var g, k := Before(m).value.from, Before(m).value.k;
      TurnNames(m);
      TurnFronts(m);
      ComesIntoView(g, w);
      Along(g, Entry(g), k, w);
      NamesApart(g);
    }
  }

  lemma EntryShort(m: Method)
    ensures m != MSEARCH ==> Entry(m) <= |NameOf(m)|
  {
    NamesApart(m);
    hide NameOf, MethodString, Before;
    if Before(m).Some? { TurnNames(m); }
  }

  /** Every method but M-SEARCH is known by its name. */
  lemma NameGuessed(m: Method)
    requires m != MSEARCH
    ensures NameOf(m) != [] && Guess(NameOf(m)) == Some(m)
  {
    hide NameOf, MethodString, Guess, Entry;
    NamesApart(m);
    EntryShort(m);
    ComesIntoView(m, NameOf(m));
    Along(m, Entry(m), |NameOf(m)|, NameOf(m));
  }

  // ---------- what is read is the name so far ----------

  /** The letters read are the front of the name in view. The table has M-SEARCH with blanks, so that no word without
      blanks gets beyond its third letter. */
  predicate InView(m: Method, w: seq<char>) {
    if m == MSEARCH then |w| == 2 || |w| == 3 else w <= NameOf(m)
  }

  lemma FirstInView(ch: char)
    ensures var m := FirstGuess(ch); m.Some? ==> InView(m.value, [ch]) && m.value != MSEARCH
  {}

  lemma SecondLetter(m: Method, ch: char)
    requires Correct(m, 1, ch).Some?
    ensures var v := Correct(m, 1, ch).value;
            && m != MSEARCH
            && (v != MSEARCH ==> Before(v) == Some(Turn(m, 1)) && 1 < |NameOf(v)| && NameOf(v)[1] == ch)
  {}

  lemma LaterLetter(m: Method, k: nat, ch: char)
    requires Correct(m, k, ch).Some? && k != 1
    ensures var v := Correct(m, k, ch).value;
            m != MSEARCH && v != MSEARCH && Before(v) == Some(Turn(m, k)) && k < |NameOf(v)| && NameOf(v)[k] == ch
  {}

  lemma CorrectedInView(m: Method, w: seq<char>, ch: char)
    requires InView(m, w) && Correct(m, |w|, ch).Some?
    ensures InView(Correct(m, |w|, ch).value, w + [ch])
  {
    hide NameOf, MethodString, Correct, Before;
    if |w| == 1 { SecondLetter(m, ch); } else { LaterLetter(m, |w|, ch); }
    var v := Correct(m, |w|, ch).value;
    if v != MSEARCH {
      TurnFronts(v);
      FrontLonger(w, ch, NameOf(m), NameOf(v));
    }
  }

  lemma FrontLonger(w: seq<char>, ch: char, a: seq<char>, b: seq<char>)
    requires w <= a && |w| < |b| && b[|w|] == ch && forall j :: 0 <= j < |w| ==> b[j] == a[j]
    ensures w + [ch] <= b
  {}

  lemma KeptInView(m: Method, w: seq<char>, ch: char)
    requires InView(m, w) && ch == At(MethodString(m), |w|) && ch != '\0' && ch != ' '
    ensures InView(m, w + [ch])
  {
    NamesApart(m);
    if m == MSEARCH { SearchTable(); }
  }

  lemma SearchTable()
    ensures At(MethodString(MSEARCH), 2) == '-' && At(MethodString(MSEARCH), 3) == ' '
    ensures forall i :: 0 <= i < |MethodString(MSEARCH)| ==> MethodString(MSEARCH)[i] != '\0'
  {}

  lemma NextInView(m: Method, w: seq<char>, ch: char)
    requires InView(m, w) && NextGuess(m, |w|, ch).Some? && ch != ' '
    ensures InView(NextGuess(m, |w|, ch).value, w + [ch])
  {
    hide InView, MethodString, Correct;
    if ch == At(MethodString(m), |w|) { KeptInView(m, w, ch); } else { CorrectedInView(m, w, ch); }
  }

  lemma {:induction false} GuessInView(m: Method, k: nat, w: seq<char>)
    requires k <= |w| && InView(m, w[..k]) && ' ' !in w && GuessFrom(m, k, w).Some?
    ensures InView(GuessFrom(m, k, w).value, w)
    decreases |w| - k
  {
    hide InView, NextGuess;
    if k == |w| {
      assert w[..k] == w;
    } else {
      NextInView(m, w[..k], w[k]);
      assert w[..k] + [w[k]] == w[..k + 1];
      GuessInView(NextGuess(m, k, w[k]).value, k + 1, w);
    }
  }

  lemma ViewEnds(m: Method, w: seq<char>)
    requires InView(m, w) && |w| >= |MethodString(m)|
    ensures m != MSEARCH && w == NameOf(m)
  {
    NamesApart(m);
    if m == MSEARCH { SearchTable(); }
  }

  /** A word without blanks has a method in view to its end exactly when it is the method's name; M-SEARCH never is. */
  lemma NameExact(w: seq<char>, m: Method)
    requires w != [] && ' ' !in w
    ensures (Guess(w) == Some(m) && |w| >= |MethodString(m)|) <==> (m != MSEARCH && w == NameOf(m))
  {
    hide InView, NameOf, MethodString, Correct, FirstGuess, GuessFrom;
    NamesApart(m);
    if m != MSEARCH { NameGuessed(m); }
    if Guess(w) == Some(m) && |w| >= |MethodString(m)| {
      FirstInView(w[0]);
      assert w[..1] == [w[0]];
      GuessInView(FirstGuess(w[0]).value, 1, w);
      ViewEnds(m, w);
    }
  }

  // ---------- runs ----------

  /** The parser of a message that has begun. */
  function Begun(p: Parser, m: Method): Parser {
    p.(flags := NO_FLAGS, contentLength := ULLONG_MAX, verb := m)
  }

  lemma BytePass(p: Parser, ch: char)
    requires p.state == ReqMethod && ch != ' '
    ensures Pass(p, ch) == match NextGuess(p.verb, p.index, ch)
                           case None => Fail(INVALID_METHOD)
                           case Some(v) => Consumed(p.(index := p.index + 1, verb := v), None)
  {
    hide MethodString, Correct;
  }

  lemma FirstPass(p: Parser, ch: char)
    requires p.state == StartReq && ch != CR && ch != LF
    ensures Pass(p, ch) == match FirstGuess(ch)
                           case None => Fail(INVALID_METHOD)
                           case Some(m) => Consumed(Begun(p, m).(index := 1, state := ReqMethod), Some(MessageBegin))
  {}

  lemma BlankPass(p: Parser)
    requires p.state == ReqMethod
    ensures Pass(p, ' ') == if p.index >= |MethodString(p.verb)|
                            then Consumed(p.(index := p.index + 1, state := ReqSpacesBeforeUrl), None)
                            else if MethodString(p.verb)[p.index] == ' '
                            then Consumed(p.(index := p.index + 1), None) else Fail(INVALID_METHOD)
  {
    NoNul(p.verb);
    hide MethodString, Correct;
  }

  lemma NoNul(m: Method)
    ensures forall i :: 0 <= i < |MethodString(m)| ==> MethodString(m)[i] != '\0'
  {
    if m == MSEARCH {
      SearchTable();
    } else {
      SameNames(m);
      hide NameOf, MethodString;
      forall j | 0 <= j < |NameOf(m)| ensures NameOf(m)[j] != '\0' { NameLetters(m, j); }
    }
  }

  lemma {:induction false} LettersRun(max: nat, c: Config, w: seq<char>, k: nat)
    requires c.p.state == ReqMethod && c.p.index == k <= |w| && ' ' !in w && c.p.nread + |w| - k <= max
    ensures RunOn(max, Going(c), w[k..]) ==
            match GuessFrom(c.p.verb, k, w)
            case None => Failed
            case Some(v) =>
              Going(Config(c.p.(verb := v, index := |w|, nread := c.p.nread + |w| - k), c.t, c.n + |w| - k))
    decreases |w| - k
  {
    hide RunOn, Step, Pass, NextGuess;
    if k == |w| {
      assert w[k..] == [];
      RunNothing(max, c);
    } else {
      assert w[k..] == [w[k]] + w[k + 1..];
      RunAppend(max, Going(c), [w[k]], w[k + 1..]);
      RunOne(max, c, w[k]);
      var p := c.p.(nread := c.p.nread + 1);
      BytePass(p, w[k]);
      if NextGuess(c.p.verb, k, w[k]) == None {
        FailedStep(max, c, w[k]);
        RunStopped(max, Failed, w[k + 1..]);
      } else {
        var q := p.(index := k + 1, verb := NextGuess(c.p.verb, k, w[k]).value);
        Move(max, c, w[k], q);
        LettersRun(max, Config(q, c.t, c.n + 1), w, k + 1);
      }
    }
  }

  lemma RunNothing(max: nat, c: Config)
    ensures RunOn(max, Going(c), []) == Going(c)
  {}

  lemma FailedStep(max: nat, c: Config, ch: char)
    requires ParsingHeader(c.p.state) && c.p.nread < max && Pass(c.p.(nread := c.p.nread + 1), ch).Fail?
    ensures Step(max, c, ch) == Failed
  {
    hide Pass, ParsingHeader;
  }

  lemma FirstStep(max: nat, c: Config, ch: char)
    requires c.p.state == StartReq && ch != CR && ch != LF && c.p.nread < max
    ensures Step(max, c, ch) ==
            match FirstGuess(ch)
            case None => Failed
            case Some(m) => Going(Config(Begun(c.p, m).(index := 1, state := ReqMethod, nread := c.p.nread + 1),
                                         Push(c.t, MessageBegin), c.n + 1))
  {
    FirstPass(c.p.(nread := c.p.nread + 1), ch);
    hide Pass, Push, FirstGuess;
  }

  /** A word at the start of a message has a method in view, or is refused. */
  lemma WordRun(max: nat, c: Config, w: seq<char>)
    requires c.p.state == StartReq && w != [] && ' ' !in w && w[0] != CR && w[0] != LF && c.p.nread + |w| <= max
    ensures RunOn(max, Going(c), w) ==
            match Guess(w)
            case None => Failed
            case Some(m) => Going(Config(Begun(c.p, m).(index := |w|, state := ReqMethod, nread := c.p.nread + |w|),
                                         Push(c.t, MessageBegin), c.n + |w|))
  {
    hide RunOn, Step, Push, FirstGuess, GuessFrom;
    assert w == [w[0]] + w[1..];
    RunAppend(max, Going(c), [w[0]], w[1..]);
    RunOne(max, c, w[0]);
    FirstStep(max, c, w[0]);
    if FirstGuess(w[0]) == None {
      RunStopped(max, Failed, w[1..]);
    } else {
      var m := FirstGuess(w[0]).value;
      LettersRun(max, Config(Begun(c.p, m).(index := 1, state := ReqMethod, nread := c.p.nread + 1),
                             Push(c.t, MessageBegin), c.n + 1), w, 1);
    }
  }

  /** Where the word of a method and its blank leave the parser. */
  predicate MethodTaken(r: Run, c: Config, w: seq<char>, m: Method) {
    r == Going(Config(Begun(c.p, m).(index := |w| + 1, state := ReqSpacesBeforeUrl, nread := c.p.nread + |w| + 1),
                      Push(c.t, MessageBegin), c.n + |w| + 1))
  }

  /** The word at the start of a request is taken for a method exactly when it is the method's name, letter by letter.
      M-SEARCH, which the table has with blanks, is taken for none. */
  lemma MethodExact(max: nat, c: Config, w: seq<char>, m: Method)
    requires c.p.state == StartReq && w != [] && ' ' !in w && w[0] != CR && w[0] != LF && c.p.nread + |w| < max
    ensures MethodTaken(RunOn(max, Going(c), w + [' ']), c, w, m) <==> (m != MSEARCH && w == NameOf(m))
  {
    hide RunOn, Step, Push, Guess, NameOf, MethodString, MethodTaken;
    WordRun(max, c, w);
    NameExact(w, m);
    RunAppend(max, Going(c), w, [' ']);
    if Guess(w) == None {
      RunStopped(max, Failed, [' ']);
    } else {
      BlankTaken(max, c, w, Guess(w).value, m);
    }
    NotFailed(c, w, m);
  }

  lemma NotFailed(c: Config, w: seq<char>, m: Method)
    ensures !MethodTaken(Failed, c, w, m)
  {}

  /** The parser in the middle of a method's word. */
  function InWord(c: Config, w: seq<char>, v: Method): Config {
    Config(Begun(c.p, v).(index := |w|, state := ReqMethod, nread := c.p.nread + |w|), Push(c.t, MessageBegin),
           c.n + |w|)
  }

  lemma BlankTaken(max: nat, c: Config, w: seq<char>, v: Method, m: Method)
    requires c.p.nread + |w| < max
    ensures MethodTaken(RunOn(max, Going(InWord(c, w, v)), [' ']), c, w, m) <==> v == m && |w| >= |MethodString(m)|
  {
    hide RunOn, Step, Push, MethodString;
    BlankRun(max, InWord(c, w, v));
  }

  lemma BlankRun(max: nat, d: Config)
    requires d.p.state == ReqMethod && d.p.nread < max
    ensures var r := RunOn(max, Going(d), [' ']);
            if d.p.index >= |MethodString(d.p.verb)|
            then r == Going(Config(d.p.(index := d.p.index + 1, state := ReqSpacesBeforeUrl, nread := d.p.nread + 1),
                                   d.t, d.n + 1))
            else r.Failed? || (r.Going? && r.c.p.state == ReqMethod)
  {
    hide RunOn, Step, Pass, MethodString;
    var p := d.p.(nread := d.p.nread + 1);
    BlankPass(p);
    RunOne(max, d, ' ');
    if p.index >= |MethodString(p.verb)| {
      Move(max, d, ' ', p.(index := p.index + 1, state := ReqSpacesBeforeUrl));
    } else if MethodString(p.verb)[p.index] == ' ' {
      Move(max, d, ' ', p.(index := p.index + 1));
    } else {
      FailedStep(max, d, ' ');
    }
  }
}
