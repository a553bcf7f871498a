/**
 * The undo log of a proxied request: changes made for one attempt are recorded, so
 * that a failed attempt can be taken back before the next one.
 */
module ProxyRequest {
  import opened Options

  /** Node keeps the values of some headers as a list. */
  datatype HeaderValue = Single(text: string) | Multiple(texts: seq<string>)

  type Headers = map<string, HeaderValue>

  /** The parts of a request that an attempt may change. Header names are in lower case. */
  datatype Content = Content(
    headers: Headers, url: string, body: string, key: Option<string>, signedRequest: Option<string>)

  datatype Change =
    | SetHeader(name: string, value: string)
    | RemoveHeader(name: string)
    | SetBody(body: string)
    | SetKey(key: string)
    | SetPath(path: string)
    | SetSignedRequest(signed: Option<string>)

  datatype Mutation =
    | HeaderWas(name: string, original: Option<HeaderValue>)
    | PathWas(path: string)
    | BodyWas(body: string)
    | KeyWas(key: Option<string>)
    | SignedRequestWas(signed: Option<string>)

  function LowerChar(c: char): char {
    if 'A' <= c <= 'Z' then c - 'A' + 'a' else c
  }

  function Lower(name: string): string {
    if name == "" then "" else [LowerChar(name[0])] + Lower(name[1..])
  }

  /** The path of a url is what precedes its query and fragment. */
  function Path(url: string): (path: string)
    ensures path <= url
    ensures path == url <==> '?' !in url && '#' !in url
  {
    if url == "" || url[0] == '?' || url[0] == '#' then "" else [url[0]] + Path(url[1..])
  }

  /** The names are in lower case. */
  predicate IsReferer(h: string) {
    h == "referer" || h == "referrer"
  }

  function Stored(headers: Headers, h: string): Option<HeaderValue> {
    if h in headers then Some(headers[h]) else None
  }

  /** What `get` answers: Express takes the two spellings of one header for each other, and an empty one as absent. */
  function Answer(headers: Headers, h: string): Option<HeaderValue> {
    if !IsReferer(h) then Stored(headers, h)
    else if "referrer" in headers && headers["referrer"] != Single("") then Some(headers["referrer"])
    else Stored(headers, "referer")
  }

  function Put(headers: Headers, h: string, value: Option<HeaderValue>): Headers {
    if value.None? then headers - {h} else headers[h := value.value]
  }

  function Header(c: Content, name: string): Option<HeaderValue> {
    Answer(c.headers, Lower(name))
  }

  function WithHeader(c: Content, name: string, value: Option<HeaderValue>): Content {
    c.(headers := Put(c.headers, Lower(name), value))
  }

  function Changed(c: Content, change: Change): Content {
    match change
    case SetHeader(name, value) => WithHeader(c, name, Some(Single(value)))
    case RemoveHeader(name) => WithHeader(c, name, None)
    case SetBody(body) => c.(body := body)
    case SetKey(key) => c.(key := Some(key))
    case SetPath(path) => c.(url := path)
    case SetSignedRequest(signed) => c.(signedRequest := signed)
  }

  function Recorded(c: Content, change: Change): Mutation {
    match change
    case SetHeader(name, _) => HeaderWas(name, Header(c, name))
    case RemoveHeader(name) => HeaderWas(name, Header(c, name))
    case SetBody(_) => BodyWas(c.body)
    case SetKey(_) => KeyWas(c.key)
    case SetPath(_) => PathWas(Path(c.url))
    case SetSignedRequest(_) => SignedRequestWas(c.signedRequest)
  }

  function Undone(c: Content, m: Mutation): Content {
    match m
    case HeaderWas(name, original) => WithHeader(c, name, original)
    case PathWas(path) => c.(url := path)
    case BodyWas(body) => c.(body := body)
    case KeyWas(_) => c
    case SignedRequestWas(signed) => c.(signedRequest := signed)
  }

  function UndoneAll(c: Content, ms: seq<Mutation>): Content
    decreases |ms|
  {
    if ms == [] then c else UndoneAll(Undone(c, ms[|ms| - 1]), ms[..|ms| - 1])
  }

  // ----- The objects -----

  class Request {
    var headers: Headers
    var url: string
    var body: string
    var key: Option<string>
    var signedRequest: Option<string>

    constructor (c: Content)
      ensures Current() == c
    {
      headers, url, body, key, signedRequest := c.headers, c.url, c.body, c.key, c.signedRequest;
    }

    function Current(): Content
      reads this
    {
      Content(headers, url, body, key, signedRequest)
    }

    function Get(name: string): Option<HeaderValue>
      reads this
    {
      Answer(headers, Lower(name))
    }
  }

  class ProxyReqManager {
    const req: Request
    var mutations: seq<Mutation>

    constructor (req: Request)
      ensures this.req == req && mutations == []
    {
      this.req := req;
      mutations := [];
    }

    method SetHeader(name: string, newValue: string)
      modifies this, req
      ensures req.Current() == Changed(old(req.Current()), Change.SetHeader(name, newValue))
      ensures mutations == old(mutations) + [Recorded(old(req.Current()), Change.SetHeader(name, newValue))]
    {
      var originalValue := req.Get(name);
      mutations := mutations + [HeaderWas(name, originalValue)];
      req.headers := req.headers[Lower(name) := Single(newValue)];
    }

    method RemoveHeader(name: string)
      modifies this, req
      ensures req.Current() == Changed(old(req.Current()), Change.RemoveHeader(name))
      ensures mutations == old(mutations) + [Recorded(old(req.Current()), Change.RemoveHeader(name))]
    {
      var originalValue := req.Get(name);
      mutations := mutations + [HeaderWas(name, originalValue)];
      req.headers := req.headers - {Lower(name)};
    }

    method SetBody(newBody: string)
      modifies this, req
      ensures req.Current() == Changed(old(req.Current()), Change.SetBody(newBody))
      ensures mutations == old(mutations) + [Recorded(old(req.Current()), Change.SetBody(newBody))]
    {
      mutations := mutations + [BodyWas(req.body)];
      req.body := newBody;
    }

    method SetKey(newKey: string)
      modifies this, req
      ensures req.Current() == Changed(old(req.Current()), Change.SetKey(newKey))
      ensures mutations == old(mutations) + [Recorded(old(req.Current()), Change.SetKey(newKey))]
    {
      mutations := mutations + [KeyWas(req.key)];
      req.key := Some(newKey);
    }

    method SetPath(newPath: string)
      modifies this, req
      ensures req.Current() == Changed(old(req.Current()), Change.SetPath(newPath))
      ensures mutations == old(mutations) + [Recorded(old(req.Current()), Change.SetPath(newPath))]
    {
      mutations := mutations + [PathWas(Path(req.url))];
      req.url := newPath;
    }

    method SetSignedRequest(newSignedRequest: Option<string>)
      modifies this, req
      ensures req.Current() == Changed(old(req.Current()), Change.SetSignedRequest(newSignedRequest))
      ensures mutations == old(mutations) + [Recorded(old(req.Current()), Change.SetSignedRequest(newSignedRequest))]
    {
      mutations := mutations + [SignedRequestWas(req.signedRequest)];
      req.signedRequest := newSignedRequest;
    }

    method Revert()
      modifies this, req
      ensures req.Current() == UndoneAll(old(req.Current()), old(mutations))
      ensures mutations == []
    {
      var i := |mutations|;
      assert mutations[..|mutations|] == mutations;
      while i > 0
        invariant 0 <= i <= |mutations| && mutations == old(mutations)
        invariant UndoneAll(req.Current(), mutations[..i]) == UndoneAll(old(req.Current()), old(mutations))
      {
        i := i - 1;
        var mutation := mutations[i];
        assert mutations[..i + 1][..i] == mutations[..i];
        match mutation
        case HeaderWas(name, original) =>
          if original.None? {
            req.headers := req.headers - {Lower(name)};
          } else {
            req.headers := req.headers[Lower(name) := original.value];
          }
        case PathWas(path) => req.url := path;
        case BodyWas(body) => req.body := body;
        case KeyWas(_) =>
        case SignedRequestWas(signed) => req.signedRequest := signed;
      }
      mutations := [];
    }
  }

  // ----- Attempts -----

  /** One attempt that fails: all its changes, in order, and then the revert. */
  function Attempted(c: Content, changes: seq<Change>): Content {
    UndoneAll(AfterChanges(c, changes), Mutations(c, changes))
  }

  function AfterChanges(c: Content, changes: seq<Change>): Content
    decreases |changes|
  {
    if changes == [] then c else AfterChanges(Changed(c, changes[0]), changes[1..])
  }

  function Mutations(c: Content, changes: seq<Change>): seq<Mutation>
    decreases |changes|
  {
    if changes == [] then [] else [Recorded(c, changes[0])] + Mutations(Changed(c, changes[0]), changes[1..])
  }

  function AfterAttempts(c: Content, attempts: seq<seq<Change>>): Content
    decreases |attempts|
  {
    if attempts == [] then c else AfterAttempts(Attempted(c, attempts[0]), attempts[1..])
  }

  /** The last key given to the request. */
  function LastKey(key: Option<string>, changes: seq<Change>): Option<string>
    decreases |changes|
  {
    if changes == [] then key
    else LastKey(if changes[0].SetKey? then Some(changes[0].key) else key, changes[1..])
  }

  predicate SetsPath(changes: seq<Change>) {
    exists i :: 0 <= i < |changes| && changes[i].SetPath?
  }

  predicate Touches(change: Change, h: string) {
    (change.SetHeader? || change.RemoveHeader?) && Lower(change.name) == h
  }

  /** The headers as one change leaves them. */
  function HeadersAfter(headers: Headers, change: Change): Headers {
    match change
    case SetHeader(name, value) => headers[Lower(name) := Single(value)]
    case RemoveHeader(name) => headers - {Lower(name)}
    case _ => headers
  }

  /** Header `h` after a failed attempt: what was looked up before the attempt first touched it. */
  function RestoredAs(headers: Headers, changes: seq<Change>, h: string): Option<HeaderValue>
    decreases |changes|
  {
    if changes == [] then Stored(headers, h)
    else if Touches(changes[0], h) then Answer(headers, h)
    else RestoredAs(HeadersAfter(headers, changes[0]), changes[1..], h)
  }

  /** Before the attempt first touches either spelling of the referer header, a lookup answers what is stored under it. */
  predicate RefererComesBack(headers: Headers, changes: seq<Change>) {
    && RestoredAs(headers, changes, "referer") == Stored(headers, "referer")
    && RestoredAs(headers, changes, "referrer") == Stored(headers, "referrer")
  }

  /** What else a failed attempt leaves behind: the last key, and the url without its query if the path was set. */
  function Left(c: Content, changes: seq<Change>): Content {
    c.(key := LastKey(c.key, changes), url := if SetsPath(changes) then Path(c.url) else c.url)
  }

  lemma {:induction false} UndoingStartsAtTheEnd(c: Content, m: Mutation, ms: seq<Mutation>)
    ensures UndoneAll(c, [m] + ms) == Undone(UndoneAll(c, ms), m)
    decreases |ms|
  {
    if ms == [] {
      assert ([m] + ms)[..0] == [];
    } else {
      UndoingStartsAtTheEnd(Undone(c, ms[|ms| - 1]), m, ms[..|ms| - 1]);
      assert ([m] + ms)[..|[m] + ms| - 1] == [m] + ms[..|ms| - 1];
    }
  }

  lemma {:induction false} AttemptOneEarlier(c: Content, change: Change, rest: seq<Change>)
    ensures Attempted(c, [change] + rest) == Undone(Attempted(Changed(c, change), rest), Recorded(c, change))
  {
    assert ([change] + rest)[1..] == rest;
    UndoingStartsAtTheEnd(AfterChanges(c, [change] + rest), Recorded(c, change), Mutations(Changed(c, change), rest));
  }

  lemma {:induction false} SetsPathOneEarlier(change: Change, rest: seq<Change>)
    ensures SetsPath([change] + rest) <==> change.SetPath? || SetsPath(rest)
  {
    if SetsPath(rest) {
      var i :| 0 <= i < |rest| && rest[i].SetPath?;
      assert ([change] + rest)[i + 1].SetPath?;
    }
    if change.SetPath? {
      assert ([change] + rest)[0].SetPath?;
    }
  }

  /** Undoing the first change after everything else; what is said of all but the headers. */
  lemma {:induction false} UndoingTheFirst(c: Content, change: Change, rest: seq<Change>, later: Content)
    requires later == Left(Changed(c, change), rest).(headers := later.headers)
    ensures var undone := Undone(later, Recorded(c, change)); undone == Left(c, [change] + rest).(headers := undone.headers)
  {
    assert ([change] + rest)[1..] == rest;
    SetsPathOneEarlier(change, rest);
  }

  /** Everything but the headers. */
  lemma {:induction false} FailedAttemptLeaves(c: Content, changes: seq<Change>)
    ensures Attempted(c, changes) == Left(c, changes).(headers := Attempted(c, changes).headers)
    decreases |changes|
  {
    if changes == [] {
    } else {
      var change, rest := changes[0], changes[1..];
      assert changes == [change] + rest;
      AttemptOneEarlier(c, change, rest);
      FailedAttemptLeaves(Changed(c, change), rest);
      UndoingTheFirst(c, change, rest, Attempted(Changed(c, change), rest));
    }
  }

  lemma {:induction false} HeaderAfterAttempt(c: Content, changes: seq<Change>, h: string)
    ensures Stored(Attempted(c, changes).headers, h) == RestoredAs(c.headers, changes, h)
    decreases |changes|
  {
    if changes == [] {
    } else {
      var change, rest := changes[0], changes[1..];
      assert changes == [change] + rest;
      AttemptOneEarlier(c, change, rest);
      HeaderAfterAttempt(Changed(c, change), rest, h);
    }
  }

  /** Any other header comes back, whether it was there or not. */
  lemma {:induction false} OtherHeadersComeBack(headers: Headers, changes: seq<Change>, h: string)
    requires !IsReferer(h)
    ensures RestoredAs(headers, changes, h) == Stored(headers, h)
    decreases |changes|
  {
    if changes == [] {
    } else {
      OtherHeadersComeBack(HeadersAfter(headers, changes[0]), changes[1..], h);
    }
  }

  lemma {:induction false} SameHeaders(a: Headers, b: Headers)
    requires forall h: string :: Stored(a, h) == Stored(b, h)
    ensures a == b
  {
    assert forall h: string :: h in a <==> Stored(a, h).Some?;
    assert forall h: string :: h in b <==> Stored(b, h).Some?;
    assert forall h: string :: h in a ==> Stored(a, h) == Some(a[h]) && Stored(b, h) == Some(b[h]);
  }

  /** One failed attempt gives all headers back exactly when the referer header was looked up as it is stored. */
  lemma {:induction false} AttemptRestoresHeadersExactlyWhen(c: Content, changes: seq<Change>)
    ensures Attempted(c, changes).headers == c.headers <==> RefererComesBack(c.headers, changes)
    ensures forall h :: !IsReferer(h) ==> Stored(Attempted(c, changes).headers, h) == Stored(c.headers, h)
  {
    var after := Attempted(c, changes).headers;
    forall h ensures Stored(after, h) == RestoredAs(c.headers, changes, h) {
      HeaderAfterAttempt(c, changes, h);
    }
    forall h | !IsReferer(h) ensures Stored(after, h) == Stored(c.headers, h) {
      OtherHeadersComeBack(c.headers, changes, h);
    }
    if RefererComesBack(c.headers, changes) {
      forall h: string ensures Stored(after, h) == Stored(c.headers, h) {
        assert IsReferer(h) ==> h == "referer" || h == "referrer";
      }
      SameHeaders(after, c.headers);
    }
  }

  predicate TouchesAny(changes: seq<Change>, h: string) {
    exists i :: 0 <= i < |changes| && Touches(changes[i], h)
  }

  lemma {:induction false} UntouchedIsStored(headers: Headers, changes: seq<Change>, h: string)
    requires !TouchesAny(changes, h)
    ensures RestoredAs(headers, changes, h) == Stored(headers, h)
    decreases |changes|
  {
    if changes == [] {
    } else {
      assert !Touches(changes[0], h);
      assert forall i :: 0 <= i < |changes[1..]| ==> changes[1..][i] == changes[i + 1];
      UntouchedIsStored(HeadersAfter(headers, changes[0]), changes[1..], h);
    }
  }

  /** The headers after all of the changes. */
  function HeadersAfterAll(headers: Headers, changes: seq<Change>): Headers
    decreases |changes|
  {
    if changes == [] then headers else HeadersAfterAll(HeadersAfter(headers, changes[0]), changes[1..])
  }

  lemma {:induction false} LaterTouches(change: Change, rest: seq<Change>, h: string)
    ensures TouchesAny([change] + rest, h) <==> Touches(change, h) || TouchesAny(rest, h)
  {
    if TouchesAny(rest, h) {
      var i :| 0 <= i < |rest| && Touches(rest[i], h);
      assert ([change] + rest)[i + 1] == rest[i];
    }
    if Touches(change, h) {
      assert ([change] + rest)[0] == change;
    }
  }

  lemma {:induction false} UntouchedStays(headers: Headers, changes: seq<Change>, h: string)
    requires !TouchesAny(changes, h)
    ensures Stored(HeadersAfterAll(headers, changes), h) == Stored(headers, h)
    decreases |changes|
  {
    if changes == [] {
    } else {
      assert changes == [changes[0]] + changes[1..];
      LaterTouches(changes[0], changes[1..], h);
      UntouchedStays(HeadersAfter(headers, changes[0]), changes[1..], h);
    }
  }

  /** What is touched first, before anything touches the other spelling, is looked up in the headers as they came. */
  lemma {:induction false} FirstTouchedIsLookedUp(headers: Headers, changes: seq<Change>, rest: seq<Change>, h: string, other: string)
    requires IsReferer(h) && IsReferer(other) && h != other
    requires TouchesAny(changes, h) && !TouchesAny(changes, other)
    ensures RestoredAs(headers, changes + rest, h) == Answer(headers, h)
    decreases |changes|
  {
    var change, later := changes[0], changes[1..];
    assert changes == [change] + later && (changes + rest)[1..] == later + rest;
    LaterTouches(change, later, h);
    LaterTouches(change, later, other);
    if Touches(change, h) {
    } else {
      FirstTouchedIsLookedUp(HeadersAfter(headers, change), later, rest, h, other);
    }
  }

  lemma {:induction false} RestoredBehindUntouched(headers: Headers, changes: seq<Change>, rest: seq<Change>, h: string)
    requires !TouchesAny(changes, h)
    ensures RestoredAs(headers, changes + rest, h) == RestoredAs(HeadersAfterAll(headers, changes), rest, h)
    decreases |changes|
  {
    if changes == [] {
      assert [] + rest == rest;
    } else {
      var change, later := changes[0], changes[1..];
      assert changes == [change] + later && (changes + rest)[1..] == later + rest;
      LaterTouches(change, later, h);
      RestoredBehindUntouched(HeadersAfter(headers, change), later, rest, h);
    }
  }

  predicate IsTruthy(value: Option<HeaderValue>) {
    value.Some? && value.value != Single("")
  }

  /** A lookup answers what is stored unless the other spelling answers for this one. */
  lemma {:induction false} AnswerIsStoredExactlyWhen(headers: Headers, h: string)
    ensures Answer(headers, h) == Stored(headers, h) <==>
              || !IsReferer(h) || Stored(headers, "referrer") == Stored(headers, "referer")
              || (h == "referrer" <==> IsTruthy(Stored(headers, "referrer")))
  {
  }

  /**
   * An attempt that touches `referer` alone, as stripping the headers of a request does, gives it back if and
   * only if the request has no `referrer` header, an empty one, or one that says the same.
   */
  lemma {:induction false} StrippedRefererComesBackExactlyWhen(headers: Headers, changes: seq<Change>)
    requires TouchesAny(changes, "referer") && !TouchesAny(changes, "referrer")
    ensures RefererComesBack(headers, changes) <==>
              Stored(headers, "referrer") in {None, Some(Single("")), Stored(headers, "referer")}
  {
    assert changes + [] == changes;
    FirstTouchedIsLookedUp(headers, changes, [], "referer", "referrer");
    UntouchedIsStored(headers, changes, "referrer");
  }

  /**
   * An attempt that touches one spelling and later the other gives both back if and only if the first lookup answers
   * what is stored, and so does the second, made when the first spelling has its last value before it.
   */
  lemma {:induction false} BothComeBackExactlyWhen(headers: Headers, before: seq<Change>, after: seq<Change>, first: string, second: string)
    requires IsReferer(first) && IsReferer(second) && first != second
    requires TouchesAny(before, first) && !TouchesAny(before, second) && after != [] && Touches(after[0], second)
    ensures var meanwhile := Put(headers, first, Stored(HeadersAfterAll(headers, before), first));
            RefererComesBack(headers, before + after) <==>
              Answer(headers, first) == Stored(headers, first) && Answer(meanwhile, second) == Stored(headers, second)
  {
    FirstTouchedIsLookedUp(headers, before, after, first, second);
    RestoredBehindUntouched(headers, before, after, second);
    UntouchedStays(headers, before, second);
  }

  lemma {:induction false} OnlyRemovedIsAbsent(headers: Headers, changes: seq<Change>, h: string)
    requires forall i :: 0 <= i < |changes| && Touches(changes[i], h) ==> changes[i].RemoveHeader?
    requires TouchesAny(changes, h) || h !in headers
    ensures Stored(HeadersAfterAll(headers, changes), h) == None
    decreases |changes|
  {
    if changes == [] {
    } else {
      assert changes == [changes[0]] + changes[1..];
      LaterTouches(changes[0], changes[1..], h);
      assert forall i :: 0 <= i < |changes[1..]| ==> changes[1..][i] == changes[i + 1];
      OnlyRemovedIsAbsent(HeadersAfter(headers, changes[0]), changes[1..], h);
    }
  }

  /**
   * An attempt that strips `referer` and later touches `referrer`, as the removal of the headers that are signed
   * may, gives both back if and only if the request has no `referrer` header, or one that is not empty and says
   * the same as its `referer` header.
   */
  lemma {:induction false} StrippedThenTouchedComesBackExactlyWhen(headers: Headers, before: seq<Change>, after: seq<Change>)
    requires TouchesAny(before, "referer") && !TouchesAny(before, "referrer") && after != [] && Touches(after[0], "referrer")
    requires forall i :: 0 <= i < |before| && Touches(before[i], "referer") ==> before[i].RemoveHeader?
    ensures RefererComesBack(headers, before + after) <==>
              || Stored(headers, "referrer") == None
              || (IsTruthy(Stored(headers, "referrer")) && Stored(headers, "referrer") == Stored(headers, "referer"))
  {
    BothComeBackExactlyWhen(headers, before, after, "referer", "referrer");
    OnlyRemovedIsAbsent(headers, before, "referer");
    AnswerIsStoredExactlyWhen(headers, "referer");
  }

  function LastKeyOfAll(key: Option<string>, attempts: seq<seq<Change>>): Option<string>
    decreases |attempts|
  {
    if attempts == [] then key else LastKeyOfAll(LastKey(key, attempts[0]), attempts[1..])
  }

  predicate AnySetsPath(attempts: seq<seq<Change>>) {
    exists i :: 0 <= i < |attempts| && SetsPath(attempts[i])
  }

  lemma {:induction false} AnySetsPathSplit(attempts: seq<seq<Change>>)
    requires attempts != []
    ensures AnySetsPath(attempts) <==> SetsPath(attempts[0]) || AnySetsPath(attempts[1..])
  {
    if AnySetsPath(attempts[1..]) {
      var i :| 0 <= i < |attempts[1..]| && SetsPath(attempts[1..][i]);
      assert SetsPath(attempts[i + 1]);
    }
    if AnySetsPath(attempts) && !SetsPath(attempts[0]) {
      var i :| 0 <= i < |attempts| && SetsPath(attempts[i]);
      assert attempts[i] == attempts[1..][i - 1];
    }
  }

  lemma {:induction false} PathOfPath(url: string)
    ensures Path(Path(url)) == Path(url)
  {
    assert forall k :: 0 <= k < |Path(url)| ==> Path(url)[k] == url[k];
    NoQueryInPath(url);
  }

  lemma {:induction false} NoQueryInPath(url: string)
    ensures '?' !in Path(url) && '#' !in Path(url)
  {
    if url == "" || url[0] == '?' || url[0] == '#' {
    } else {
      NoQueryInPath(url[1..]);
    }
  }

  lemma {:induction false} FailedAttemptsLeave(c: Content, attempts: seq<seq<Change>>)
    ensures var after := AfterAttempts(c, attempts);
            && after == c.(headers := after.headers, key := LastKeyOfAll(c.key, attempts),
                           url := if AnySetsPath(attempts) then Path(c.url) else c.url)
            && forall h :: !IsReferer(h) ==> Stored(after.headers, h) == Stored(c.headers, h)
    decreases |attempts|
  {
    if attempts == [] {
    } else {
      FailedAttemptLeaves(c, attempts[0]);
      AttemptRestoresHeadersExactlyWhen(c, attempts[0]);
      FailedAttemptsLeave(Attempted(c, attempts[0]), attempts[1..]);
      AnySetsPathSplit(attempts);
      PathOfPath(c.url);
    }
  }

  lemma {:induction false} OneMoreAttempt(c: Content, attempts: seq<seq<Change>>, n: nat)
    requires n < |attempts|
    ensures AfterAttempts(c, attempts[..n + 1]) == Attempted(AfterAttempts(c, attempts[..n]), attempts[n])
    decreases n
  {
    if n == 0 {
      assert attempts[..1] == [attempts[0]] && [attempts[0]][1..] == [];
    } else {
      assert attempts[..n + 1][1..] == attempts[1..][..n] && attempts[..n][1..] == attempts[1..][..n - 1];
      OneMoreAttempt(Attempted(c, attempts[0]), attempts[1..], n - 1);
    }
  }

  ghost predicate HeadersBackAfter(c: Content, attempts: seq<seq<Change>>, n: nat)
    requires n <= |attempts|
  {
    AfterAttempts(c, attempts[..n]).headers == c.headers
  }

  lemma {:induction false} HeadersBackUntil(c: Content, attempts: seq<seq<Change>>, n: nat)
    requires n <= |attempts| && forall m :: 0 <= m < n ==> RefererComesBack(c.headers, attempts[m])
    ensures HeadersBackAfter(c, attempts, n)
  {
    if n == 0 {
    } else {
      HeadersBackUntil(c, attempts, n - 1);
      OneMoreAttempt(c, attempts, n - 1);
      AttemptRestoresHeadersExactlyWhen(AfterAttempts(c, attempts[..n - 1]), attempts[n - 1]);
    }
  }

  /**
   * However many attempts fail, whatever they change, the body, the signed request and every header but the
   * referer (absent ones too) come back exactly and the last key stays; the url comes back exactly when no
   * attempt sets the path or the url has no query and no fragment to lose; and the headers come back from every
   * attempt exactly when each attempt looks the referer up as it is stored.
   */
  lemma {:induction false} RevertsRestoreExactlyWhen(c: Content, attempts: seq<seq<Change>>)
    ensures var after := AfterAttempts(c, attempts);
            && after == c.(headers := after.headers, url := after.url, key := LastKeyOfAll(c.key, attempts))
            && (after.url == c.url <==> !AnySetsPath(attempts) || ('?' !in c.url && '#' !in c.url))
            && (forall h :: !IsReferer(h) ==> Stored(after.headers, h) == Stored(c.headers, h))
    ensures (forall n: nat :: n <= |attempts| ==> HeadersBackAfter(c, attempts, n)) <==>
            (forall n: nat :: n < |attempts| ==> RefererComesBack(c.headers, attempts[n]))
  {
    FailedAttemptsLeave(c, attempts);
    if forall n: nat :: n < |attempts| ==> RefererComesBack(c.headers, attempts[n]) {
      forall n: nat | n <= |attempts| ensures HeadersBackAfter(c, attempts, n) {
        HeadersBackUntil(c, attempts, n);
      }
    }
    if forall n: nat :: n <= |attempts| ==> HeadersBackAfter(c, attempts, n) {
      forall n: nat | n < |attempts| ensures RefererComesBack(c.headers, attempts[n]) {
        assert HeadersBackAfter(c, attempts, n) && HeadersBackAfter(c, attempts, n + 1);
        OneMoreAttempt(c, attempts, n);
        AttemptRestoresHeadersExactlyWhen(AfterAttempts(c, attempts[..n]), attempts[n]);
      }
    }
  }
}
