/** The paths a bulk restore recognises: contacts, sieve scripts, calendar events. */
module Paths {
  import opened Seqs
  import opened Tree

  const CONTACTS := "contacts/default/"
  const SIEVES := "sieve/"
  const CALENDARS := "calendars/"
  const EVENTS := "events/"
  const VCF := ".vcf"
  const SIEVE := ".sieve"

  function StripPrefix(s: string, p: string): (r: Option<string>)
    ensures r.Some? <==> p <= s
    ensures r.Some? ==> s == p + r.value
  {
    if p <= s then Some(s[|p|..]) else None
  }

  function StripSuffix(s: string, p: string): (r: Option<string>)
    ensures r.Some? <==> EndsWith(s, p)
    ensures r.Some? ==> s == r.value + p
  {
    if EndsWith(s, p) then Some(s[..|s| - |p|]) else None
  }

  /** `split_once('/')` */
  function SplitOnce(s: string): (r: Option<(string, string)>)
    ensures r.Some? <==> '/' in s
    ensures r.Some? ==> '/' !in r.value.0 && s == r.value.0 + "/" + r.value.1
  {
    if s == "" then None
    else if s[0] == '/' then Some(("", s[1..]))
    else match SplitOnce(s[1..])
      case None => None
      case Some((a, b)) => Some(([s[0]] + a, b))
  }

  /** `extract_contact_uid` */
  function ContactUid(path: string): Option<string> {
    match StripPrefix(path, CONTACTS) case None => None case Some(rest) => StripSuffix(rest, VCF)
  }

  /** `extract_sieve_name` */
  function SieveName(path: string): Option<string> {
    match StripPrefix(path, SIEVES) case None => None case Some(rest) => StripSuffix(rest, SIEVE)
  }

  function EventFile(rest: string): Option<(string, string)> {
    match SplitOnce(rest)
    case None => None
    case Some((cal, after)) =>
      match StripPrefix(after, EVENTS)
      case None => None
      case Some(file) =>
        match StripSuffix(file, ICS) case None => None case Some(uid) => Some((cal, uid))
  }

  /** `extract_calendar_event` */
  function EventOfPath(path: string): Option<(string, string)> {
    match StripPrefix(path, CALENDARS) case None => None case Some(rest) => EventFile(rest)
  }

  /** The path an event is backed up at. */
  function EventPath(cal: string, uid: string): string { CALENDARS + cal + "/" + EVENTS + uid + ICS }

  // ── a path is read back as what it names ───────────────────────────────

  lemma {:induction false} SplitAtFirst(a: string, b: string)
    requires '/' !in a
    ensures SplitOnce(a + "/" + b) == Some((a, b))
  {
    var s := a + "/" + b;
    if a == "" {
      assert s == "/" + b;
    } else {
      assert a[0] in a && forall c <- a[1..] :: c in a;
      assert s[1..] == a[1..] + "/" + b;
      SplitAtFirst(a[1..], b);
      assert [a[0]] + a[1..] == a;
    }
  }

  lemma StripBack(a: string, b: string)
    ensures StripPrefix(a + b, a) == Some(b)
    ensures StripSuffix(a + b, b) == Some(a)
  {
    assert (a + b)[|a|..] == b && (a + b)[..|a|] == a;
  }

  lemma EventFileParts(cal: string, uid: string)
    requires '/' !in cal
    ensures EventFile(cal + "/" + (EVENTS + (uid + ICS))) == Some((cal, uid))
  {
    SplitAtFirst(cal, EVENTS + (uid + ICS));
    StripBack(EVENTS, uid + ICS);
    StripBack(uid, ICS);
  }

  lemma PathShape(cal: string, uid: string)
    ensures EventPath(cal, uid) == CALENDARS + (cal + "/" + (EVENTS + (uid + ICS)))
  {}

  /** What an extracted path was. */
  lemma ExtractedFrom(path: string)
    ensures var r := EventOfPath(path);
      r.Some? ==> path == EventPath(r.value.0, r.value.1) && '/' !in r.value.0
  {
    if EventOfPath(path).Some? {
      var (cal, uid) := EventOfPath(path).value;
      PathShape(cal, uid);
    }
  }

  /** The round trip holds exactly when the calendar id has no slash; the uid may
      have any. */
  lemma EventPathRoundTrip(cal: string, uid: string)
    ensures EventOfPath(EventPath(cal, uid)) == Some((cal, uid)) <==> '/' !in cal
  {
    ExtractedFrom(EventPath(cal, uid));
    if '/' !in cal {
      PathShape(cal, uid);
      StripBack(CALENDARS, cal + "/" + (EVENTS + (uid + ICS)));
      EventFileParts(cal, uid);
    }
  }

  /** Different paths name different events. */
  lemma ExtractInjective(p: string, q: string)
    requires EventOfPath(p).Some? && EventOfPath(p) == EventOfPath(q)
    ensures p == q
  {
    ExtractedFrom(p);
    ExtractedFrom(q);
  }

  /** The three kinds of path, spelled out. */
  lemma PathsSpelled(path: string, a: string, b: string)
    ensures ContactUid(path) == Some(a) <==> path == "contacts/default/" + a + ".vcf"
    ensures SieveName(path) == Some(a) <==> path == "sieve/" + a + ".sieve"
    ensures EventOfPath(path) == Some((a, b)) <==>
            '/' !in a && path == "calendars/" + a + "/" + "events/" + b + ".ics"
  {
    ContactRoundTrip(a);
    SieveRoundTrip(a);
    Assoc("contacts/default/", a, ".vcf");
    Assoc("sieve/", a, ".sieve");
    EventSpelled(path, a, b);
  }

  lemma EventSpelled(path: string, cal: string, uid: string)
    ensures EventOfPath(path) == Some((cal, uid)) <==>
            '/' !in cal && path == "calendars/" + cal + "/" + "events/" + uid + ".ics"
  {
    hide EventOfPath;
    ExtractedFrom(path);
    EventPathRoundTrip(cal, uid);
  }

  lemma ContactRoundTrip(uid: string)
    ensures ContactUid(CONTACTS + uid + VCF) == Some(uid)
  {
    assert CONTACTS + uid + VCF == CONTACTS + (uid + VCF);
    StripBack(CONTACTS, uid + VCF);
    StripBack(uid, VCF);
  }

  lemma SieveRoundTrip(name: string)
    ensures SieveName(SIEVES + name + SIEVE) == Some(name)
  {
    assert SIEVES + name + SIEVE == SIEVES + (name + SIEVE);
    StripBack(SIEVES, name + SIEVE);
    StripBack(name, SIEVE);
  }

  /** No path is two kinds of resource, so the order of the tests does not matter. */
  lemma KindsDisjoint(path: string)
    ensures ContactUid(path).None? || SieveName(path).None?
    ensures ContactUid(path).None? || EventOfPath(path).None?
    ensures SieveName(path).None? || EventOfPath(path).None?
  {
    assert CONTACTS[0] == 'c' && CONTACTS[1] == 'o' && SIEVES[0] == 's' && CALENDARS[0] == 'c' && CALENDARS[1] == 'a';
    assert CONTACTS <= path ==> path[0] == 'c' && path[1] == 'o';
    assert SIEVES <= path ==> path[0] == 's';
    assert CALENDARS <= path ==> path[0] == 'c' && path[1] == 'a';
  }
}
