/** ERPact site creation: short names and hosts, and the capped create under one mutex in front of a deployer
    whose answers may be lost. The mutex is held over two calls, the listing and the create; a create whose answer
    was lost may land at the deployer at any time, between them too. */
module ErpactSites {
  import opened Wrappers
  import Text

  const SITE_CAP := 15
  const MAIN_SUFFIX := ".erpact.online"
  const LEGACY_SUFFIX := ".mctl.ai"
  const PREFIX := "erpact-"
  const BASE_HOST := "erpact-shared-stteam.mctl.ai"
  const CLO_BASE_HOST := "shared-stteam.clo.erpact.online"
  const SYSTEM_NAMES := {"apps", "readme", "database", "mariadb", "helm-flow-master", "helm-guestbook", "helm-prajavani",
                         "system", "root", "control"}

  // ---- Names and hosts ----

  predicate HasSuffix(s: string, suffix: string) {
    |suffix| <= |s| && s[|s| - |suffix|..] == suffix
  }

  function CutSuffix(s: string, suffix: string): string
    requires HasSuffix(s, suffix)
  {
    s[..|s| - |suffix|]
  }

  /** The short name a listed host stands for. */
  function ShortName(host: string): string {
    if HasSuffix(host, MAIN_SUFFIX) then
      var bare := CutSuffix(host, MAIN_SUFFIX);
      if PREFIX <= bare then bare else PREFIX + bare
    else if HasSuffix(host, LEGACY_SUFFIX) then CutSuffix(host, LEGACY_SUFFIX)
    else host
  }

  predicate IsBaseHost(host: string) {
    Text.EqualFold(host, BASE_HOST) || Text.EqualFold(host, CLO_BASE_HOST)
  }

  /** `unicode.ToLower` where it can yield an accepted character: ASCII, U+212A and U+0130. */
  function ToLower(c: char): char {
    if 'A' <= c <= 'Z' then (c as int + 32) as char
    else if c == '\U{212A}' then 'k'
    else if c == '\U{0130}' then 'i'
    else c
  }

  function Lower(s: string): (r: string)
    ensures |r| == |s|
  {
    seq(|s|, i requires 0 <= i < |s| => ToLower(s[i]))
  }

  predicate IsLabelChar(c: char) {
    'a' <= c <= 'z' || '0' <= c <= '9' || c == '-'
  }

  /** The name pattern: the prefix, then 1 to 40 lower-case letters, digits and hyphens. */
  predicate MatchesPattern(name: string) {
    PREFIX <= name && 1 <= |name| - |PREFIX| <= 40 && forall c | c in name :: IsLabelChar(c)
  }

  function Label(name: string): string
    requires PREFIX <= name
  {
    name[|PREFIX|..]
  }

  datatype NameError = Missing | BadPattern | Reserved

  function Validate(raw: string): Result<string, NameError> {
    var name := Lower(Text.TrimSpace(raw));
    if name == "" then Err(Missing)
    else if !MatchesPattern(name) then Err(BadPattern)
    else if Text.EqualFold(name + LEGACY_SUFFIX, BASE_HOST) then Err(Reserved)
    else if Label(name) in SYSTEM_NAMES then Err(Reserved)
    else if PREFIX <= Label(name) then Err(Reserved)
    else Ok(name)
  }

  ghost predicate Accepted(name: string) {
    exists raw :: Validate(raw) == Ok(name)
  }

  /** The host the deployer gives a created site. */
  function HostOf(name: string): string
    requires PREFIX <= name
  {
    Label(name) + MAIN_SUFFIX
  }

  lemma AcceptedIsPlain(name: string)
    requires Accepted(name)
    ensures MatchesPattern(name) && !(PREFIX <= Label(name))
  {
  }

  /** For every name of the right pattern: its host maps back to it exactly when its label does not itself start
      with the prefix, which is what validation refuses. */
  lemma RoundTripExactly(name: string)
    requires MatchesPattern(name)
    ensures ShortName(HostOf(name)) == name <==> !(PREFIX <= Label(name))
  {
  }

  /** Every accepted name's host maps back to exactly that name. */
  lemma HostRoundTrip(name: string)
    requires Accepted(name)
    ensures PREFIX <= name && ShortName(HostOf(name)) == name
  {
    AcceptedIsPlain(name);
    RoundTripExactly(name);
  }

  lemma DistinctNamesDistinctHosts(a: string, b: string)
    requires Accepted(a) && Accepted(b) && a != b
    ensures PREFIX <= a && PREFIX <= b && HostOf(a) != HostOf(b)
  {
    HostRoundTrip(a);
    HostRoundTrip(b);
  }

  /** Hosts of accepted names are never taken for a base host. */
  lemma NewHostIsNotBase(name: string)
    requires Accepted(name)
    ensures PREFIX <= name && !IsBaseHost(HostOf(name))
  {
    AcceptedIsPlain(name);
    var host, bare := HostOf(name), Label(name);
    assert host[|host| - 1] == MAIN_SUFFIX[|MAIN_SUFFIX| - 1] == 'e';
    assert BASE_HOST[|BASE_HOST| - 1] == 'i';
    if |host| == |CLO_BASE_HOST| {
      assert CLO_BASE_HOST[13] == '.' && |bare| == 17;
      assert host[13] == bare[13] == name[13 + |PREFIX|] && name[13 + |PREFIX|] in name;
      assert Text.Fold(host[13]) != Text.Fold('.');
    }
  }

  /** Among names of the right pattern, case folding is equality. */
  lemma FoldIsEquality(a: string, b: string)
    requires MatchesPattern(a) && MatchesPattern(b)
    ensures Text.EqualFold(a, b) <==> a == b
  {
    if Text.EqualFold(a, b) {
      forall i | 0 <= i < |a| ensures a[i] == b[i] {
        assert a[i] in a && b[i] in b;
        assert Text.Fold(a[i]) == a[i] && Text.Fold(b[i]) == b[i];
      }
    }
  }

  lemma {:induction false} TrimIsPart(s: string)
    requires forall c | c in s :: !Text.IsSpace(c)
    ensures Text.TrimSpace(s) == s
  {
  }

  /** Validating an accepted name changes nothing. */
  lemma ValidateIsIdempotent(name: string)
    requires Accepted(name)
    ensures Validate(name) == Ok(name)
  {
    AcceptedIsPlain(name);
    forall c | c in name ensures !Text.IsSpace(c) && ToLower(c) == c {
      assert IsLabelChar(c);
    }
    TrimIsPart(name);
    assert Lower(name) == name;
  }

  ghost predicate IsPlain(c: char) {
    97 <= c as int <= 122 || 48 <= c as int <= 57 || c as int == 45
  }

  /** A name is accepted exactly when, trimmed and lowered, it is the prefix and a label of 1 to 40 letters, digits and
      hyphens that is no system name, not the bench and does not start with the prefix again. */
  lemma ValidateExactly(raw: string)
    ensures var name := Lower(Text.TrimSpace(raw)); var bare := if PREFIX <= name then Label(name) else "";
            var shaped := "erpact-" <= name && 1 <= |bare| <= 40 && forall c | c in bare :: IsPlain(c);
            Validate(raw) ==
              if name == "" then Err(Missing)
              else if !shaped then Err(BadPattern)
              else if || bare in {"apps", "readme", "database", "mariadb", "helm-flow-master",
                                  "helm-guestbook", "helm-prajavani", "system", "root", "control"}
                      || bare == "shared-stteam" || "erpact-" <= bare
                   then Err(Reserved)
              else Ok(name)
  {
    hide Text.TrimSpace;
    hide Lower;
    var name := Lower(Text.TrimSpace(raw));
    if PREFIX <= name {
      var bare := Label(name);
      assert name == PREFIX + bare;
      PatternOfLabel(bare);
      if MatchesPattern(name) { BenchExactly(bare); }
    }
  }

  lemma PatternOfLabel(bare: string)
    ensures MatchesPattern(PREFIX + bare) <==> 1 <= |bare| <= 40 && forall c | c in bare :: IsPlain(c)
  {
    assert forall c | c in PREFIX :: IsLabelChar(c);
    assert forall c :: c in PREFIX + bare <==> c in PREFIX || c in bare;
    assert forall c: char :: IsLabelChar(c) <==> IsPlain(c);
  }

  /** The bench's host folds only to its own label. */
  lemma BenchExactly(bare: string)
    requires forall c | c in bare :: IsPlain(c)
    ensures Text.EqualFold(PREFIX + bare + LEGACY_SUFFIX, BASE_HOST) <==> bare == "shared-stteam"
  {
    var host, bench := PREFIX + bare + LEGACY_SUFFIX, "shared-stteam";
    assert BASE_HOST == PREFIX + bench + LEGACY_SUFFIX;
    if Text.EqualFold(host, BASE_HOST) {
      forall i | 0 <= i < |bare| ensures bare[i] == bench[i] {
        assert bare[i] in bare && host[|PREFIX| + i] == bare[i] && BASE_HOST[|PREFIX| + i] == bench[i];
        assert Text.Fold(bare[i]) == bare[i];
        BenchIsLower(i);
      }
    }
  }

  lemma BenchIsLower(i: nat)
    requires i < |"shared-stteam"|
    ensures Text.Fold("shared-stteam"[i]) == "shared-stteam"[i]
  {
  }

  /** Letter case does not matter. */
  lemma AnyCaseIsAccepted(name: string, raw: string)
    requires Accepted(name) && |raw| == |name|
    requires forall i | 0 <= i < |name| :: raw[i] == name[i] || (97 <= name[i] as int <= 122 && raw[i] as int == name[i] as int - 32)
    ensures Validate(raw) == Ok(name)
  {
    AcceptedIsPlain(name);
    ValidateIsIdempotent(name);
    forall i | 0 <= i < |raw| ensures !Text.IsSpace(raw[i]) && ToLower(raw[i]) == name[i] && !Text.IsSpace(name[i]) && ToLower(name[i]) == name[i] {
      assert name[i] in name;
    }
    TrimIsPart(raw);
    TrimIsPart(name);
    assert Lower(raw) == name && Lower(name) == name;
  }

  /** The three kinds of listed host: moved and new sites on the main domain, and legacy ones. The first and the last keep
      their name, and a bare label gets the prefix, so each maps to the name its site was created under. */
  lemma ShortNameExactly(bare: string)
    ensures ShortName(bare + ".erpact.online") == if "erpact-" <= bare then bare else "erpact-" + bare
    ensures ShortName(bare + ".mctl.ai") == bare
  {
    var main, legacy := bare + MAIN_SUFFIX, bare + LEGACY_SUFFIX;
    assert main[|main| - |MAIN_SUFFIX|..] == MAIN_SUFFIX && legacy[|legacy| - |LEGACY_SUFFIX|..] == LEGACY_SUFFIX;
    assert main[..|bare|] == bare && legacy[..|bare|] == bare;
    assert legacy[|legacy| - 1] == 'i' && MAIN_SUFFIX[|MAIN_SUFFIX| - 1] == 'e';
  }

  // ---- Creating sites ----

  /** `late`: not answered as created; it landed at some time after it was sent. */
  datatype Site = Site(host: string, late: bool)

  /** How a create call ends: created, definitely not made, timed out after it was sent, or broken after it was sent
      (a lost connection, an unreadable or unparseable answer). */
  datatype Answer = Created | NotMade | TimedOut | Broken

  datatype Response = BadName(error: NameError) | CapReached | Duplicate | Sent(name: string)

  datatype Outcome = Made(name: string) | Failed | MayStillCome(name: string)

  /** `checked` is the name that passed the check of the create holding the mutex, `unanswered` the names of sent
      creates that may still land. */
  datatype Deployer = Deployer(sites: seq<Site>, unanswered: seq<string>, checked: Option<string>)

  function Counted(sites: seq<Site>): nat {
    if sites == [] then 0
    else Counted(sites[..|sites| - 1]) + if IsBaseHost(sites[|sites| - 1].host) then 0 else 1
  }

  function LateCount(sites: seq<Site>): nat {
    if sites == [] then 0
    else LateCount(sites[..|sites| - 1]) + if sites[|sites| - 1].late then 1 else 0
  }

  predicate Takes(s: Site, name: string) {
    !IsBaseHost(s.host) && Text.EqualFold(ShortName(s.host), name)
  }

  predicate Taken(sites: seq<Site>, name: string) {
    exists i | 0 <= i < |sites| :: Takes(sites[i], name)
  }

  /** The listing under the mutex decides. */
  function Respond(d: Deployer, raw: string): Response {
    match Validate(raw)
    case Err(e) => BadName(e)
    case Ok(name) =>
      if Counted(d.sites) >= SITE_CAP then CapReached
      else if Taken(d.sites, name) then Duplicate
      else Sent(name)
  }

  /** A create begins when the mutex is free and holds it while its call is out. */
  function AfterCheck(d: Deployer, raw: string): Deployer {
    if d.checked.Some? then d
    else
      match Respond(d, raw)
      case Sent(name) => d.(checked := Some(name))
      case _ => d
  }

  function OutcomeOf(name: string, answer: Answer): Outcome {
    match answer
    case Created => Made(name)
    case NotMade => Failed
    case TimedOut => MayStillCome(name)
    case Broken => Failed
  }

  /** The create call ends, and with it the mutex is free. */
  function AfterAnswer(d: Deployer, answer: Answer): Deployer {
    if d.checked.None? || !(PREFIX <= d.checked.value) then d
    else
      var name, free := d.checked.value, d.(checked := None);
      match answer
      case Created => free.(sites := d.sites + [Site(HostOf(name), false)])
      case NotMade => free
      case TimedOut => free.(unanswered := d.unanswered + [name])
      case Broken => free.(unanswered := d.unanswered + [name])
  }

  /** An unanswered create lands. */
  function AfterLanding(d: Deployer, k: nat): Deployer {
    if k < |d.unanswered| && PREFIX <= d.unanswered[k]
    then d.(sites := d.sites + [Site(HostOf(d.unanswered[k]), true)], unanswered := d.unanswered[..k] + d.unanswered[k + 1..])
    else d
  }

  method CountSites(sites: seq<Site>, name: string) returns (count: nat, duplicate: bool)
    ensures count == Counted(sites)
    ensures duplicate <==> Taken(sites, name)
  {
    hide IsBaseHost;
    hide ShortName;
    count, duplicate := 0, false;
    for k := 0 to |sites|
      invariant count == Counted(sites[..k])
      invariant duplicate <==> exists i | 0 <= i < k :: Takes(sites[i], name)
    {
      assert sites[..k + 1][..k] == sites[..k];
      if !IsBaseHost(sites[k].host) {
        count := count + 1;
        if Text.EqualFold(ShortName(sites[k].host), name) { duplicate := true; }
      }
    }
    assert sites[..|sites|] == sites;
  }

  class Sites {
    var sites: seq<Site>
    var unanswered: seq<string>
    var checked: Option<string>

    ghost function Contents(): Deployer
      reads this
    {
      Deployer(sites, unanswered, checked)
    }

    constructor (initial: seq<Site>)
      ensures Contents() == Deployer(initial, [], None)
    {
      sites, unanswered, checked := initial, [], None;
    }

    /** CreateErpactSite up to its call of the deployer: it now holds the mutex if it goes on. */
    method CheckSite(raw: string) returns (r: Response)
      requires checked.None?
      modifies this
      ensures r == Respond(old(Contents()), raw)
      ensures Contents() == AfterCheck(old(Contents()), raw)
    {
      hide Text.EqualFold;
      hide Text.TrimSpace;
      var valid := Validate(raw);
      if valid.Err? { return BadName(valid.error); }
      var name := valid.value;
      var count, duplicate := CountSites(sites, name);
      if count >= SITE_CAP { return CapReached; }
      if duplicate { return Duplicate; }
      checked := Some(name);
      return Sent(name);
    }

    /** The rest of CreateErpactSite: the deployer's answer, and the mutex is free again. */
    method FinishSite(answer: Answer) returns (r: Outcome)
      requires checked.Some? && PREFIX <= checked.value
      modifies this
      ensures r == OutcomeOf(old(checked).value, answer)
      ensures Contents() == AfterAnswer(old(Contents()), answer) && checked.None?
    {
      var name := checked.value;
      checked := None;
      match answer
      case Created =>
        sites := sites + [Site(HostOf(name), false)];
        return Made(name);
      case NotMade => return Failed;
      case TimedOut =>
        unanswered := unanswered + [name];
        return MayStillCome(name);
      case Broken =>
        unanswered := unanswered + [name];
        return Failed;
    }
  }

  // ---- Whole runs ----

  datatype Event = Check(raw: string) | Answered(answer: Answer) | Lands(k: nat)

  function Step(d: Deployer, e: Event): Deployer {
    match e
    case Check(raw) => AfterCheck(d, raw)
    case Answered(answer) => AfterAnswer(d, answer)
    case Lands(k) => AfterLanding(d, k)
  }

  function Run(d: Deployer, events: seq<Event>): Deployer {
    if events == [] then d else Step(Run(d, events[..|events| - 1]), events[|events| - 1])
  }

  function Max(a: int, b: int): int {
    if a >= b then a else b
  }

  /** Sites as first listed: nothing on its way, nothing late. */
  ghost predicate Fresh(d: Deployer) {
    d.unanswered == [] && d.checked.None? && forall i | 0 <= i < |d.sites| :: !d.sites[i].late
  }

  ghost predicate IsSiteOf(s: Site) {
    exists name :: Accepted(name) && PREFIX <= name && s.host == HostOf(name)
  }

  /** No site that is on time takes the name. */
  ghost predicate OnTimeFree(sites: seq<Site>, name: string) {
    forall i | 0 <= i < |sites| && !sites[i].late :: !Takes(sites[i], name)
  }

  /** Every site created on time has a name that no earlier on-time site took, and the count stays within the cap, or
      what was there, plus the late landings, with room for the create that holds the mutex. */
  ghost predicate Sound(start: Deployer, d: Deployer) {
    var n := |start.sites|;
    && start.sites <= d.sites
    && (forall k | 0 <= k < |d.unanswered| :: Accepted(d.unanswered[k]))
    && (d.checked.Some? ==> Accepted(d.checked.value) && OnTimeFree(d.sites, d.checked.value))
    && (forall k | n <= k < |d.sites| :: IsSiteOf(d.sites[k]))
    && (forall i, j | 0 <= i < j < |d.sites| && n <= j && !d.sites[i].late && !d.sites[j].late ::
          !Takes(d.sites[i], ShortName(d.sites[j].host)))
    && Counted(d.sites) + (if d.checked.Some? then 1 else 0) <= Max(SITE_CAP, Counted(start.sites)) + LateCount(d.sites)
  }

  lemma CountOneMore(sites: seq<Site>, s: Site)
    ensures Counted(sites + [s]) == Counted(sites) + if IsBaseHost(s.host) then 0 else 1
    ensures LateCount(sites + [s]) == LateCount(sites) + if s.late then 1 else 0
  {
    hide IsBaseHost;
    assert (sites + [s])[..|sites|] == sites;
  }

  lemma CheckKeeps(start: Deployer, d: Deployer, raw: string)
    requires Sound(start, d)
    ensures Sound(start, AfterCheck(d, raw))
  {
    hide Takes;
    hide Validate;
    if d.checked.None? && Respond(d, raw).Sent? {
      assert Accepted(Respond(d, raw).name);
    }
  }

  lemma MadeKeeps(start: Deployer, d: Deployer, name: string)
    requires Sound(start, d) && d.checked == Some(name) && PREFIX <= name && ShortName(HostOf(name)) == name
    ensures Sound(start, d.(checked := None, sites := d.sites + [Site(HostOf(name), false)]))
  {
    hide IsBaseHost;
    hide Takes;
    hide Accepted;
    hide HostOf;
    hide ShortName;
    var site := Site(HostOf(name), false);
    CountOneMore(d.sites, site);
    assert IsSiteOf(site);
  }

  lemma AnswerKeeps(start: Deployer, d: Deployer, answer: Answer)
    requires Sound(start, d)
    ensures Sound(start, AfterAnswer(d, answer))
  {
    hide IsBaseHost;
    hide Takes;
    hide Accepted;
    hide HostOf;
    hide ShortName;
    if d.checked.Some? {
      HostRoundTrip(d.checked.value);
      if answer.Created? { MadeKeeps(start, d, d.checked.value); }
    }
  }

  lemma LandingKeeps(start: Deployer, d: Deployer, k: nat)
    requires Sound(start, d)
    ensures Sound(start, AfterLanding(d, k))
  {
    hide IsBaseHost;
    hide Takes;
    hide Accepted;
    hide HostOf;
    hide ShortName;
    if k < |d.unanswered| && PREFIX <= d.unanswered[k] {
      var site := Site(HostOf(d.unanswered[k]), true);
      CountOneMore(d.sites, site);
      assert IsSiteOf(site);
    }
  }

  lemma StepKeeps(start: Deployer, d: Deployer, e: Event)
    requires Sound(start, d)
    ensures Sound(start, Step(d, e))
  {
    hide Sound;
    match e
    case Check(raw) => CheckKeeps(start, d, raw);
    case Answered(answer) => AnswerKeeps(start, d, answer);
    case Lands(k) => LandingKeeps(start, d, k);
  }

  lemma StartIsSound(start: Deployer)
    requires Fresh(start)
    ensures Sound(start, start)
  {
  }

  /** In any sequence of checks, answers and landings, in every order the mutex and the deployer allow: no two on-time
      sites share a short name unless both were there at first, and the counted sites never exceed the larger of 15 and
      the initial count plus the late landings. */
  lemma {:induction false} RunKeepsNamesAndCap(start: Deployer, events: seq<Event>)
    requires Fresh(start)
    ensures Sound(start, Run(start, events))
  {
    hide Sound;
    hide Step;
    if events == [] {
      StartIsSound(start);
    } else {
      RunKeepsNamesAndCap(start, events[..|events| - 1]);
      StepKeeps(start, Run(start, events[..|events| - 1]), events[|events| - 1]);
    }
  }

  /** Of two created sites with one short name, at least one landed late. */
  lemma SameNameMeansLate(start: Deployer, events: seq<Event>, i: nat, j: nat)
    requires Fresh(start)
    requires var sites := Run(start, events).sites;
             |start.sites| <= i < j < |sites| && ShortName(sites[i].host) == ShortName(sites[j].host)
    ensures Run(start, events).sites[i].late || Run(start, events).sites[j].late
  {
    hide Step;
    RunKeepsNamesAndCap(start, events);
    var sites := Run(start, events).sites;
    assert IsSiteOf(sites[i]);
    var name :| Accepted(name) && PREFIX <= name && sites[i].host == HostOf(name);
    NewHostIsNotBase(name);
    hide Accepted;
    assert Takes(sites[i], ShortName(sites[j].host));
  }

  // ---- The window between the listing and the create ----

  /** The landings, one after another. */
  function LandAll(d: Deployer, ks: seq<nat>): Deployer {
    if ks == [] then d else AfterLanding(LandAll(d, ks[..|ks| - 1]), ks[|ks| - 1])
  }

  lemma {:induction false} LandingsTakeOnlyUnanswered(d: Deployer, ks: seq<nat>, name: string)
    requires Accepted(name) && !Taken(d.sites, name) && name !in d.unanswered
    requires forall k | 0 <= k < |d.unanswered| :: Accepted(d.unanswered[k])
    ensures var after := LandAll(d, ks);
            && !Taken(after.sites, name) && name !in after.unanswered
            && forall k | 0 <= k < |after.unanswered| :: Accepted(after.unanswered[k])
  {
    hide Takes;
    hide Accepted;
    hide HostOf;
    if ks != [] {
      var mid, k := LandAll(d, ks[..|ks| - 1]), ks[|ks| - 1];
      LandingsTakeOnlyUnanswered(d, ks[..|ks| - 1], name);
      if k < |mid.unanswered| && PREFIX <= mid.unanswered[k] {
        OtherHostDoesNotTake(mid.unanswered[k], name);
        assert mid.unanswered[k] in mid.unanswered;
      }
    }
  }

  lemma OtherHostDoesNotTake(other: string, name: string)
    requires Accepted(other) && Accepted(name)
    ensures PREFIX <= other && (Takes(Site(HostOf(other), true), name) <==> other == name)
  {
    AcceptedIsPlain(other);
    AcceptedIsPlain(name);
    HostRoundTrip(other);
    NewHostIsNotBase(other);
    FoldIsEquality(other, name);
  }

  lemma UnansweredCanTake(d: Deployer, k: nat)
    requires k < |d.unanswered| && Accepted(d.unanswered[k])
    ensures Taken(LandAll(d, [k]).sites, d.unanswered[k])
  {
    hide Takes;
    hide Accepted;
    hide HostOf;
    OtherHostDoesNotTake(d.unanswered[k], d.unanswered[k]);
    assert [k][..0] == [] && LandAll(d, [k]) == AfterLanding(d, k);
    assert Takes(AfterLanding(d, k).sites[|d.sites|], d.unanswered[k]);
  }

  lemma PassedCheck(start: Deployer, events: seq<Event>, raw: string)
    requires Fresh(start) && Run(start, events).checked.None? && Respond(Run(start, events), raw).Sent?
    ensures var d, name := AfterCheck(Run(start, events), raw), Respond(Run(start, events), raw).name;
            && Accepted(name) && !Taken(d.sites, name)
            && forall k | 0 <= k < |d.unanswered| :: Accepted(d.unanswered[k])
  {
    hide Takes;
    hide Validate;
    hide Run;
    RunKeepsNamesAndCap(start, events);
  }

  /** A create that passed its check can come to share its name with a counted site exactly when an earlier create of
      that very name is still unanswered: then a landing before its own answer takes the name. */
  lemma WindowIsSafeExactly(start: Deployer, events: seq<Event>, raw: string)
    requires Fresh(start) && Run(start, events).checked.None? && Respond(Run(start, events), raw).Sent?
    ensures var d, name := AfterCheck(Run(start, events), raw), Respond(Run(start, events), raw).name;
            (forall ks: seq<nat> :: !Taken(LandAll(d, ks).sites, name)) <==> name !in d.unanswered
  {
    hide Taken;
    hide Accepted;
    hide Run;
    hide LandAll;
    hide Respond;
    hide AfterCheck;
    PassedCheck(start, events, raw);
    var d, name := AfterCheck(Run(start, events), raw), Respond(Run(start, events), raw).name;
    if name in d.unanswered {
      var k: nat :| k < |d.unanswered| && d.unanswered[k] == name;
      UnansweredCanTake(d, k);
      assert Taken(LandAll(d, [k]).sites, name);
    } else {
      forall ks: seq<nat> ensures !Taken(LandAll(d, ks).sites, name) {
        LandingsTakeOnlyUnanswered(d, ks, name);
      }
    }
  }

  /** With no site there, every accepted name passes its check. */
  lemma FirstCheckPasses(name: string, unanswered: seq<string>)
    requires Accepted(name)
    ensures AfterCheck(Deployer([], unanswered, None), name) == Deployer([], unanswered, Some(name))
    ensures PREFIX <= name
  {
    hide Takes;
    AcceptedIsPlain(name);
    ValidateIsIdempotent(name);
    hide Validate;
  }

  /** The two benches neither count nor take a name. */
  lemma BenchesAreNoSites(name: string)
    requires Accepted(name)
    ensures var benches := [Site("erpact-shared-stteam.mctl.ai", false), Site("shared-stteam.clo.erpact.online", false)];
            Counted(benches) == 0 && Respond(Deployer(benches, [], None), name) == Sent(name)
  {
    ValidateIsIdempotent(name);
    hide Validate;
    var benches := [Site(BASE_HOST, false), Site(CLO_BASE_HOST, false)];
    assert benches[..1] == [benches[0]] && benches[..1][..0] == [];
    assert IsBaseHost(BASE_HOST) && IsBaseHost(CLO_BASE_HOST);
    hide IsBaseHost;
    assert Counted(benches[..1]) == 0;
  }

  /** The run: a create goes unanswered, its retry lists no such site, the first lands, the retry is answered as
      created. The later of the two sites is the one on time, for every name. */
  lemma RetryInTheWindowShares(name: string)
    requires Accepted(name)
    ensures var d := Run(Deployer([], [], None), [Check(name), Answered(TimedOut), Check(name), Lands(0), Answered(Created)]);
            PREFIX <= name && d.sites == [Site(HostOf(name), true), Site(HostOf(name), false)]
  {
    hide Accepted;
    hide AfterCheck;
    hide HostOf;
    FirstCheckPasses(name, []);
    FirstCheckPasses(name, [name]);
    var start := Deployer([], [], None);
    var es := [Check(name), Answered(TimedOut), Check(name), Lands(0), Answered(Created)];
    assert es[..4][..3] == es[..3] && es[..3][..2] == es[..2] && es[..2][..1] == es[..1] && es[..1][..0] == [];
    assert Run(start, es[..1]) == start.(checked := Some(name));
    assert Run(start, es[..2]) == Deployer([], [name], None);
    assert Run(start, es[..3]) == Deployer([], [name], Some(name));
    assert Run(start, es[..4]) == Deployer([Site(HostOf(name), true)], [], Some(name));
  }

  /** A create reported as failed after it was sent may still come up, for every name. */
  lemma FailureMayStillLand(name: string)
    requires Accepted(name)
    ensures var d := Run(Deployer([], [], None), [Check(name), Answered(Broken), Lands(0)]);
            PREFIX <= name && OutcomeOf(name, Broken) == Failed && d.sites == [Site(HostOf(name), true)]
  {
    hide Accepted;
    hide AfterCheck;
    hide HostOf;
    FirstCheckPasses(name, []);
    var start := Deployer([], [], None);
    var es := [Check(name), Answered(Broken), Lands(0)];
    assert es[..2][..1] == es[..1] && es[..1][..0] == [];
    assert Run(start, es[..1]) == start.(checked := Some(name));
    assert Run(start, es[..2]) == start.(unanswered := [name]);
  }
}
