/** The profiler: one trace session at a time, written as Chrome trace JSON:
    a header, one record per timed scope, a footer. */
module Instrumentor {
  import opened Wrappers
  import Text
  import Strings

  const Header: string := "{\"otherData\": {},\"traceEvents\":[{}"
  const Footer: string := "]}"

  /** One timed scope. `startNs` is the start on the steady clock in
      nanoseconds; `elapsedUs` the duration in whole microseconds; the thread
      id is written as the stream writes it. */
  datatype ProfileResult = ProfileResult(name: string, startNs: nat, elapsedUs: int, threadId: string)

  datatype Session = Session(name: string, path: string)

  /** The current session, if any, and the contents of every file written. */
  datatype Instrumentor = Instrumentor(session: Option<Session>, files: map<string, string>)

  function NewInstrumentor(files: map<string, string>): (p: Instrumentor)
    ensures p.session.None? && p.files == files
  {
    Instrumentor(None, files)
  }

  /** `std::replace(name, '"', '\'')`. */
  function Sanitise(name: string): (r: string)
    ensures |r| == |name|
    ensures forall i :: 0 <= i < |r| ==> r[i] == (if name[i] == '"' then '\'' else name[i])
    ensures '"' !in r
  {
    seq(|name|, i requires 0 <= i < |name| => if name[i] == '"' then '\'' else name[i])
  }

  /** Three zero-padded digits. */
  function Pad3(n: nat): (s: string)
    requires n < 1000
    ensures |s| == 3 && Text.AllDigits(s)
  {
    [Text.DigitChar(n / 100), Text.DigitChar(n / 10 % 10), Text.DigitChar(n % 10)]
  }

  /** The three digits read back as the number. */
  lemma Pad3Value(n: nat)
    requires n < 1000
    ensures Text.ParseNat(Pad3(n)) == n
  {
    var s := Pad3(n);
    assert s[..2][..1] == s[..1];
    assert s[..1][..0] == [];
    assert s[..2] == s[..2];
    calc {
      Text.ParseNat(s);
      Text.ParseNat(s[..2]) * 10 + Text.DigitValue(s[2]);
      (Text.ParseNat(s[..1]) * 10 + Text.DigitValue(s[1])) * 10 + Text.DigitValue(s[2]);
      ((n / 100) * 10 + n / 10 % 10) * 10 + n % 10;
    }
  }

  /** A microsecond count given in nanoseconds, written `std::fixed` with
      three decimals: whole microseconds, a point, then the nanoseconds. */
  function Fixed3(ns: nat): (s: string)
    ensures s == Text.NatToString(ns / 1000) + "." + Pad3(ns % 1000)
  {
    Text.NatToString(ns / 1000) + "." + Pad3(ns % 1000)
  }

  /** The text before the name in a record. */
  function NamePrefix(p: ProfileResult): string {
    ",{\"cat\":\"function\",\"dur\":" + Text.IntToString(p.elapsedUs) + ",\"name\":\""
  }

  /** The text after the name in a record, from its closing quote. */
  function NameSuffix(p: ProfileResult): string {
    "\",\"ph\":\"X\",\"pid\":0,\"tid\":" + p.threadId + ",\"ts\":" + Fixed3(p.startNs) + "}"
  }

  /** One record, as `writeProfile` builds it. */
  function Record(p: ProfileResult): string {
    NamePrefix(p) + Sanitise(p.name) + NameSuffix(p)
  }

  /** The name field of a record is a well-formed JSON string whatever the
      name: the first double quote after its opening quote closes it, and the
      text in between is the sanitised name. */
  lemma RecordNameIsClosed(p: ProfileResult)
    ensures var r := Record(p); var i := |NamePrefix(p)|;
      && r[i..i + |p.name|] == Sanitise(p.name)
      && Strings.FindFirstOf(r, {'"'}, i) == Some(i + |p.name|)
  {
    var pre, n, suf := NamePrefix(p), Sanitise(p.name), NameSuffix(p);
    var r := Record(p);
    var i := |pre|;
    assert r == pre + n + suf;
    Between(pre, n, suf);
    forall j | i <= j < i + |n|
      ensures r[j] !in {'"'}
    {
      assert r[j] == n[j - i];
    }
    Strings.FindFirstOfIs(r, {'"'}, i, i + |n|);
  }

  /** Where the middle part of a three-part text lies. */
  lemma Between(pre: string, n: string, suf: string)
    requires |suf| > 0
    ensures var r := pre + n + suf;
      && r[|pre|..|pre| + |n|] == n
      && r[|pre| + |n|] == suf[0]
      && forall j :: |pre| <= j < |pre| + |n| ==> r[j] == n[j - |pre|]
  {
    var r := pre + n + suf;
    assert r[|pre|..|pre| + |n|] == n;
  }

  /** The session text after `records`: what the file holds while it is open. */
  function Body(records: seq<ProfileResult>): string
    decreases |records|
  {
    if |records| == 0 then ""
    else Body(records[..|records| - 1]) + Record(records[|records| - 1])
  }

  /** `internalEndSession`: with a session, write the footer and drop it. */
  function InternalEndSession(p: Instrumentor): (p': Instrumentor)
    requires p.session.Some? ==> p.session.value.path in p.files
    ensures p'.session.None?
    ensures p.session.None? ==> p' == p
    ensures p.session.Some? ==> var path := p.session.value.path;
      p'.files == p.files[path := p.files[path] + Footer]
  {
    match p.session
    case None => p
    case Some(s) => Instrumentor(None, p.files[s.path := p.files[s.path] + Footer])
  }

  /** An open session's file exists. */
  predicate Valid(p: Instrumentor) {
    p.session.Some? ==> p.session.value.path in p.files
  }

  /** `beginSession`: end any open session first; then open (truncate) the file.
      When it opens, a new session starts with the header written; when it does
      not (`opens` is false) there is no session afterwards. */
  function BeginSession(p: Instrumentor, name: string, path: string, opens: bool): (p': Instrumentor)
    requires Valid(p)
    ensures Valid(p')
    ensures opens ==>
      && p'.session == Some(Session(name, path))
      && p'.files == InternalEndSession(p).files[path := Header]
    ensures !opens ==> p' == InternalEndSession(p)
  {
    var q := InternalEndSession(p);
    if opens then Instrumentor(Some(Session(name, path)), q.files[path := Header]) else q
  }

  /** `endSession`, taking the lock. The singleton's destructor calls it
      too, so a session still open when the program exits gets its footer
      then. */
  function EndSession(p: Instrumentor): (p': Instrumentor)
    requires Valid(p)
    ensures Valid(p') && p' == InternalEndSession(p)
  {
    InternalEndSession(p)
  }

  /** `writeProfile`: append the record to the open session's file; with no
      session nothing is written. */
  function WriteProfile(p: Instrumentor, r: ProfileResult): (p': Instrumentor)
    requires Valid(p)
    ensures Valid(p') && p'.session == p.session
    ensures p.session.None? ==> p' == p
    ensures p.session.Some? ==> var path := p.session.value.path;
      p'.files == p.files[path := p.files[path] + Record(r)]
  {
    match p.session
    case None => p
    case Some(s) => Instrumentor(p.session, p.files[s.path := p.files[s.path] + Record(r)])
  }

  function WriteAll(p: Instrumentor, rs: seq<ProfileResult>): (p': Instrumentor)
    requires Valid(p)
    ensures Valid(p') && p'.session == p.session
    decreases |rs|
  {
    if |rs| == 0 then p else WriteProfile(WriteAll(p, rs[..|rs| - 1]), rs[|rs| - 1])
  }

  /** While a session is open its file is the header followed by one record
      per profile written, in order. */
  lemma OpenSessionText(p: Instrumentor, name: string, path: string, rs: seq<ProfileResult>)
    requires Valid(p)
    ensures var q := WriteAll(BeginSession(p, name, path, true), rs);
      q.session == Some(Session(name, path)) && q.files[path] == Header + Body(rs)
  {
    WritesAppendRecords(BeginSession(p, name, path, true), rs);
  }

  /** Each write appends its record to the session's file. */
  lemma {:induction false} WritesAppendRecords(p: Instrumentor, rs: seq<ProfileResult>)
    requires Valid(p) && p.session.Some?
    ensures var path := p.session.value.path;
      WriteAll(p, rs).files[path] == p.files[path] + Body(rs)
    decreases |rs|
  {
    if |rs| > 0 {
      var path := p.session.value.path;
      var init, last := rs[..|rs| - 1], rs[|rs| - 1];
      WritesAppendRecords(p, init);
      var q0 := WriteAll(p, init);
      var t0 := q0.files[path];
      var rec := Record(last);
      assert WriteAll(p, rs).files[path] == t0 + rec;
      assert Body(rs) == Body(init) + rec;
      assert (p.files[path] + Body(init)) + rec == p.files[path] + (Body(init) + rec);
    }
  }

  /** A whole session writes header, records, footer to its file, and nothing
      else changes in the other files. */
  lemma SessionText(p: Instrumentor, name: string, path: string, rs: seq<ProfileResult>)
    requires Valid(p) && p.session.None?
    ensures var q := EndSession(WriteAll(BeginSession(p, name, path, true), rs));
      && q.session.None?
      && q.files == p.files[path := Header + Body(rs) + Footer]
  {
    var b := BeginSession(p, name, path, true);
    var w := WriteAll(b, rs);
    OpenSessionText(p, name, path, rs);
    WritesTouchOnlyTheSessionFile(b, rs);
    var q := EndSession(w);
    assert q.files == w.files[path := w.files[path] + Footer];
    assert b.files == p.files[path := Header];
    var want := p.files[path := Header + Body(rs) + Footer];
    assert q.files.Keys == want.Keys;
    forall f | f in want
      ensures q.files[f] == want[f]
    {
      if f != path {
        assert w.files[f] == b.files[f];
      }
    }
  }

  lemma {:induction false} WritesTouchOnlyTheSessionFile(p: Instrumentor, rs: seq<ProfileResult>)
    requires Valid(p) && p.session.Some?
    ensures var q := WriteAll(p, rs);
      q.files.Keys == p.files.Keys
      && forall f :: f in p.files && f != p.session.value.path ==> q.files[f] == p.files[f]
    decreases |rs|
  {
    if |rs| > 0 {
      WritesTouchOnlyTheSessionFile(p, rs[..|rs| - 1]);
    }
  }

  /** Beginning a session while another is open finishes the first file with
      its footer; when no file could be opened the profiles go nowhere. */
  lemma BeginWhileOpen(p: Instrumentor, name: string, path: string, r: ProfileResult)
    requires Valid(p) && p.session.Some? && p.session.value.path != path
    ensures var first := p.session.value.path;
      BeginSession(p, name, path, true).files[first] == p.files[first] + Footer
    ensures var q := BeginSession(p, name, path, false);
      q.session.None? && WriteProfile(q, r) == q
  {
  }

  /** `InstrumentationTimer`: a name, a start, and whether it has stopped. */
  datatype Timer = Timer(name: string, startNs: nat, stopped: bool)

  function StartTimer(name: string, nowNs: nat): (t: Timer)
    ensures !t.stopped && t.startNs == nowNs && t.name == name
  {
    Timer(name, nowNs, false)
  }

  /** The profile a timer stopping at `endNs` reports: both time points cut to
      whole microseconds before subtracting. */
  function TimerResult(t: Timer, endNs: nat, threadId: string): (r: ProfileResult)
    ensures r.name == t.name && r.startNs == t.startNs
    ensures r.elapsedUs == endNs / 1000 - t.startNs / 1000
  {
    ProfileResult(t.name, t.startNs, endNs / 1000 - t.startNs / 1000, threadId)
  }

  /** `stop`: write the profile and mark the timer stopped. */
  function Stop(t: Timer, p: Instrumentor, endNs: nat, threadId: string): (r: (Timer, Instrumentor))
    requires Valid(p)
    ensures r.0 == t.(stopped := true)
    ensures r.1 == WriteProfile(p, TimerResult(t, endNs, threadId))
  {
    (t.(stopped := true), WriteProfile(p, TimerResult(t, endNs, threadId)))
  }

  /** The destructor: stop unless already stopped. */
  function Destroy(t: Timer, p: Instrumentor, endNs: nat, threadId: string): (p': Instrumentor)
    requires Valid(p)
    ensures t.stopped ==> p' == p
    ensures !t.stopped ==> p' == Stop(t, p, endNs, threadId).1
  {
    if t.stopped then p else Stop(t, p, endNs, threadId).1
  }

  /** A timer stopped by hand and then destroyed writes exactly one record. */
  lemma StopThenDestroyWritesOnce(t: Timer, p: Instrumentor, e1: nat, e2: nat, tid: string)
    requires Valid(p) && !t.stopped && p.session.Some?
    ensures var (t', p1) := Stop(t, p, e1, tid);
      var path := p.session.value.path;
      Destroy(t', p1, e2, tid).files[path] == p.files[path] + Record(TimerResult(t, e1, tid))
  {
  }

  /** Examples: a quote in a name becomes an apostrophe, and a start of
      2000250 ns is written as 2000.250 µs. */
  lemma FormatExamples()
    ensures Sanitise("a\"b") == "a'b"
    ensures Fixed3(2000250) == "2000.250"
  {
    assert Sanitise("a\"b") == "a'b";
    assert Text.NatToString(2000) == "2000";
    assert Pad3(250) == "250";
  }
}
