/** The zone table of `feed.rs`. */
module WindowsZones {
  import opened Zones
  import opened Feed
  import opened FeedProofs
  import opened Components
  import opened Lines

  type Pair = (string, string)

  /** Old names have no slash; new names have one, and nothing a parameter value may not hold. */
  predicate GoodPair(p: Pair) { '/' !in p.0 && PortableName(p.1) && '/' in p.1 }

  predicate GoodPairs(ps: seq<Pair>) { forall i :: 0 <= i < |ps| ==> GoodPair(ps[i]) }

  predicate NoSlash(s: string) { forall i :: 0 <= i < |s| ==> s[i] != '/' }

  predicate Safe(s: string) { forall i :: 0 <= i < |s| ==> s[i] != ':' && s[i] != ';' && s[i] != '\n' && s[i] != '\r' }

  /** One arm of the match. */
  function Arm(win: string, region: string, city: string): (p: Pair)
    requires NoSlash(win) && Safe(region) && Safe(city)
    ensures p == (win, region + "/" + city) && GoodPair(p)
  {
    assert (region + "/" + city)[|region|] == '/';
    (win, region + "/" + city)
  }

  const STANDARD_TIME := " Standard Time"

  /** Most old names end in these two words. */
  function Standard(win: string, region: string, city: string): (p: Pair)
    requires NoSlash(win) && Safe(region) && Safe(city)
    ensures p == (win + STANDARD_TIME, region + "/" + city) && GoodPair(p)
  {
    Arm(win + STANDARD_TIME, region, city)
  }

  function Join(a: seq<Pair>, b: seq<Pair>): (ps: seq<Pair>)
    requires GoodPairs(a) && GoodPairs(b)
    ensures ps == a + b && GoodPairs(ps)
  {
    a + b
  }

  // The arms of the match in the order of the source, region by region.

  function PacificCoast(): (ps: seq<Pair>)
    ensures GoodPairs(ps)
  {
    hide GoodPair;
    [Standard("Dateline", "Etc", "GMT+12"),
     Standard("Aleutian", "America", "Adak"),
     Standard("Hawaiian", "Pacific", "Honolulu"),
     Standard("Alaskan", "America", "Anchorage"),
     Arm("Pacific Standard Time (Mexico)", "America", "Tijuana"),
     Standard("Pacific", "America", "Los_Angeles")]
  }

  function MountainAndCentral(): (ps: seq<Pair>)
    ensures GoodPairs(ps)
  {
    hide GoodPair;
    [Standard("US Mountain", "America", "Phoenix"),
     Arm("Mountain Standard Time (Mexico)", "America", "Mazatlan"),
     Standard("Mountain", "America", "Denver"),
     Standard("Central America", "America", "Guatemala"),
     Arm("Central Standard Time (Mexico)", "America", "Mexico_City"),
     Standard("Central", "America", "Chicago"),
     Standard("Canada Central", "America", "Regina"),
     Standard("SA Pacific", "America", "Bogota")]
  }

  function EasternAmerica(): (ps: seq<Pair>)
    ensures GoodPairs(ps)
  {
    hide GoodPair;
    [Arm("Eastern Standard Time (Mexico)", "America", "Cancun"),
     Standard("US Eastern", "America", "Indiana/Indianapolis"),
     Standard("Eastern", "America", "New_York"),
     Standard("Venezuela", "America", "Caracas"),
     Standard("Atlantic", "America", "Halifax"),
     Standard("Newfoundland", "America", "St_Johns"),
     Standard("SA Eastern", "America", "Cayenne")]
  }

  function SouthAmerica(): (ps: seq<Pair>)
    ensures GoodPairs(ps)
  {
    hide GoodPair;
    [Standard("Argentina", "America", "Buenos_Aires"),
     Standard("E. South America", "America", "Sao_Paulo"),
     Standard("Greenland", "America", "Godthab"),
     Standard("Pacific SA", "America", "Santiago"),
     Standard("SA Western", "America", "La_Paz")]
  }

  function AtlanticZones(): (ps: seq<Pair>)
    ensures GoodPairs(ps)
  {
    hide GoodPair;
    [Standard("Azores", "Atlantic", "Azores"),
     Standard("Cape Verde", "Atlantic", "Cape_Verde"),
     Arm("UTC", "Etc", "UTC"),
     Standard("GMT", "Europe", "London"),
     Standard("Greenwich", "Atlantic", "Reykjavik")]
  }

  function CentralEurope(): (ps: seq<Pair>)
    ensures GoodPairs(ps)
  {
    hide GoodPair;
    [Standard("W. Europe", "Europe", "Berlin"),
     Standard("Central Europe", "Europe", "Budapest"),
     Standard("Romance", "Europe", "Paris"),
     Standard("Central European", "Europe", "Warsaw"),
     Standard("W. Central Africa", "Africa", "Lagos")]
  }

  function EasternEurope(): (ps: seq<Pair>)
    ensures GoodPairs(ps)
  {
    hide GoodPair;
    [Standard("GTB", "Europe", "Bucharest"),
     Standard("FLE", "Europe", "Kiev"),
     Standard("E. Europe", "Europe", "Chisinau"),
     Standard("Egypt", "Africa", "Cairo"),
     Standard("South Africa", "Africa", "Johannesburg"),
     Standard("Israel", "Asia", "Jerusalem"),
     Standard("Russian", "Europe", "Moscow"),
     Standard("E. Africa", "Africa", "Nairobi")]
  }

  function MiddleEast(): (ps: seq<Pair>)
    ensures GoodPairs(ps)
  {
    hide GoodPair;
    [Standard("Arabic", "Asia", "Baghdad"),
     Standard("Arab", "Asia", "Riyadh"),
     Standard("Iran", "Asia", "Tehran"),
     Standard("Arabian", "Asia", "Dubai"),
     Standard("Azerbaijan", "Asia", "Baku")]
  }

  function SouthAsia(): (ps: seq<Pair>)
    ensures GoodPairs(ps)
  {
    hide GoodPair;
    [Standard("India", "Asia", "Kolkata"),
     Standard("Nepal", "Asia", "Kathmandu"),
     Standard("Central Asia", "Asia", "Almaty"),
     Standard("Bangladesh", "Asia", "Dhaka"),
     Standard("Myanmar", "Asia", "Yangon"),
     Standard("SE Asia", "Asia", "Bangkok")]
  }

  function EastAsia(): (ps: seq<Pair>)
    ensures GoodPairs(ps)
  {
    hide GoodPair;
    [Standard("China", "Asia", "Shanghai"),
     Standard("Singapore", "Asia", "Singapore"),
     Standard("Taipei", "Asia", "Taipei"),
     Standard("Tokyo", "Asia", "Tokyo"),
     Standard("Korea", "Asia", "Seoul")]
  }

  function Oceania(): (ps: seq<Pair>)
    ensures GoodPairs(ps)
  {
    hide GoodPair;
    [Standard("W. Australia", "Australia", "Perth"),
     Standard("Cen. Australia", "Australia", "Adelaide"),
     Standard("AUS Central", "Australia", "Darwin"),
     Standard("E. Australia", "Australia", "Brisbane"),
     Standard("AUS Eastern", "Australia", "Sydney"),
     Standard("Tasmania", "Australia", "Hobart"),
     Standard("New Zealand", "Pacific", "Auckland")]
  }

  function Americas(): (ps: seq<Pair>)
    ensures GoodPairs(ps)
  {
    hide *;
    Join(Join(PacificCoast(), MountainAndCentral()), Join(EasternAmerica(), SouthAmerica()))
  }

  function EuropeAndAfrica(): (ps: seq<Pair>)
    ensures GoodPairs(ps)
  {
    hide *;
    Join(AtlanticZones(), Join(CentralEurope(), EasternEurope()))
  }

  function AsiaAndPacific(): (ps: seq<Pair>)
    ensures GoodPairs(ps)
  {
    hide *;
    Join(Join(MiddleEast(), SouthAsia()), Join(EastAsia(), Oceania()))
  }

  function AllPairs(): (ps: seq<Pair>)
    ensures GoodPairs(ps)
  {
    hide *;
    Join(Americas(), Join(EuropeAndAfrica(), AsiaAndPacific()))
  }

  /** The arms of the match, the first that fits deciding. */
  function FromPairs(ps: seq<Pair>): map<string, string> {
    if ps == [] then map[] else FromPairs(ps[1..])[ps[0].0 := ps[0].1]
  }

  function WindowsToIana(): map<string, string> { FromPairs(AllPairs()) }

  lemma {:induction false} FromGoodPairs(ps: seq<Pair>)
    requires GoodPairs(ps)
    ensures forall win <- FromPairs(ps) :: '/' !in win && PortableName(FromPairs(ps)[win]) && '/' in FromPairs(ps)[win]
  {
    if ps != [] { FromGoodPairs(ps[1..]); }
  }

  /** The real table meets what the rewriting needs. */
  lemma TableIsGood()
    ensures GoodZones(WindowsToIana())
  {
    hide AllPairs;
    FromGoodPairs(AllPairs());
  }

  // ── one name ───────────────────────────────────────────────────────────

  predicate Lacks(ps: seq<Pair>, win: string) { forall i :: 0 <= i < |ps| ==> ps[i].0 != win }

  lemma {:induction false} FirstArm(before: seq<Pair>, p: Pair, after: seq<Pair>)
    requires Lacks(before, p.0)
    ensures p.0 in FromPairs(before + ([p] + after)) && FromPairs(before + ([p] + after))[p.0] == p.1
  {
    if before == [] {
      assert before + ([p] + after) == [p] + after && ([p] + after)[1..] == after;
    } else {
      assert (before + ([p] + after))[1..] == before[1..] + ([p] + after);
      FirstArm(before[1..], p, after);
    }
  }

  /** Starting with another letter, or of another length. */
  predicate NoEastern(ps: seq<Pair>) { forall i :: 0 <= i < |ps| ==> |ps[i].0| != 21 || ps[i].0[0] != 'E' }

  lemma NotInPacific()
    ensures NoEastern(PacificCoast())
  {
    hide GoodPair;
  }

  lemma NotInMountain()
    ensures NoEastern(MountainAndCentral())
  {
    hide GoodPair;
  }

  lemma InEastern() returns (before: seq<Pair>, after: seq<Pair>)
    ensures EasternAmerica() == before + ([("Eastern" + STANDARD_TIME, "America" + "/" + "New_York")] + after)
    ensures NoEastern(before)
  {
    hide GoodPair;
    before, after := EasternAmerica()[..2], EasternAmerica()[3..];
  }

  lemma LacksEastern(ps: seq<Pair>)
    requires NoEastern(ps)
    ensures Lacks(ps, "Eastern Standard Time")
  {}

  lemma Grouped(a: seq<Pair>, b: seq<Pair>, before: seq<Pair>, p: Pair, after: seq<Pair>, c: seq<Pair>, d: seq<Pair>)
    ensures ((a + b) + ((before + ([p] + after)) + c)) + d == (a + b + before) + ([p] + (after + c + d))
  {}

  lemma EasternPlace() returns (before: seq<Pair>, p: Pair, after: seq<Pair>)
    ensures AllPairs() == before + ([p] + after) && NoEastern(before)
    ensures p == ("Eastern" + STANDARD_TIME, "America" + "/" + "New_York")
  {
    var head, tail := InEastern();
    NotInPacific();
    NotInMountain();
    hide PacificCoast, MountainAndCentral, EasternAmerica, SouthAmerica, EuropeAndAfrica, AsiaAndPacific, GoodPair;
    hide STANDARD_TIME, GoodPairs;
    p := ("Eastern" + STANDARD_TIME, "America" + "/" + "New_York");
    before := PacificCoast() + MountainAndCentral() + head;
    after := tail + SouthAmerica() + (EuropeAndAfrica() + AsiaAndPacific());
    Grouped(PacificCoast(), MountainAndCentral(), head, p, tail, SouthAmerica(), EuropeAndAfrica() + AsiaAndPacific());
  }

  lemma EasternSpelled()
    ensures "Eastern" + STANDARD_TIME == "Eastern Standard Time" && "America" + "/" + "New_York" == "America/New_York"
  {}

  /** New York's time by its Windows name. */
  lemma EasternTime()
    ensures ToIana(WindowsToIana(), "Eastern Standard Time") == "America/New_York"
  {
    var before, p, after := EasternPlace();
    LacksEastern(before);
    EasternSpelled();
    hide AllPairs, NoEastern, STANDARD_TIME, GoodPairs;
    FirstArm(before, p, after);
  }

  /** The feed text as `merge_calendar` makes it. */
  function Published(events: seq<CalendarEvent>, calName: string, prodid: string): string {
    Unlines(Merged(WindowsToIana(), events, calName, prodid))
  }

  predicate Resolved(text: string, l: string) {
    var id := ParamTzid(l);
    id.Some? && id.value !in WindowsToIana() && DefinedOnce(text, id.value)
  }

  /** The published feed: no event lost or invented, each zone once. */
  lemma PublishedFeed(events: seq<CalendarEvent>, calName: string, prodid: string)
    requires Tidy(events) && OneLine(calName) && OneLine(prodid)
    requires Free(events, "VTIMEZONE", "VEVENT") && Free(events, "VEVENT", "VTIMEZONE")
    ensures Extract(Published(events, calName, prodid), "VEVENT") == AllParts(WindowsToIana(), events, "VEVENT")
    ensures Extract(Published(events, calName, prodid), "VTIMEZONE") == Second(MergedZones(WindowsToIana(), events))
  {
    hide WindowsToIana, Merged, Unlines, Extract, DefinedOnce, Closed, Free, Tidy, GoodZones, ParamTzid;
    TableIsGood();
    MergeKeepsEvents(WindowsToIana(), events, calName, prodid);
    MergeKeepsZones(WindowsToIana(), events, calName, prodid);
  }

  /** A zone a published event refers to is none of the 67 Windows names. */
  lemma PublishedReference(events: seq<CalendarEvent>, calName: string, prodid: string, b: Block, l: string)
    requires Tidy(events) && OneLine(calName) && OneLine(prodid) && Free(events, "VTIMEZONE", "VEVENT")
    requires RefersIn(Published(events, calName, prodid), b, l)
    ensures ParamTzid(l).value !in WindowsToIana()
  {
    hide WindowsToIana, Merged, Unlines, Extract, Free, Tidy, GoodZones, ParamTzid;
    TableIsGood();
    MergeKeepsEvents(WindowsToIana(), events, calName, prodid);
    ReferenceRewritten(WindowsToIana(), events, b, l);
  }

  /** If moreover every payload defines the zones it refers to, it is defined in the
      feed exactly once. */
  lemma PublishedResolved(events: seq<CalendarEvent>, calName: string, prodid: string, b: Block, l: string)
    requires Tidy(events) && OneLine(calName) && OneLine(prodid)
    requires Free(events, "VTIMEZONE", "VEVENT") && Free(events, "VEVENT", "VTIMEZONE")
    requires forall ev <- events :: ev.ical.Some? ==> Closed(ev.ical.value)
    requires RefersIn(Published(events, calName, prodid), b, l)
    ensures Resolved(Published(events, calName, prodid), l)
  {
    hide WindowsToIana, Merged, Unlines, Extract, DefinedOnce, Closed, Free, Tidy, GoodZones, ParamTzid;
    TableIsGood();
    PublishedReference(events, calName, prodid, b, l);
    ReferencesStayClosed(WindowsToIana(), events, calName, prodid, b, l);
  }
}
