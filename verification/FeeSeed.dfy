/**
 * Post-visa fee seeding (apps/backend/src/jobs/v2Ingest.ts:25-72, 377-403): the course state that gates it, and the
 * insert that two partial unique indexes on the fee table arbitrate.
 */
module FeeSeed {
  import Money
  import opened Text
  import opened Wrappers

  // ---- The course state ----

  const LEAD_COURSE_STATES := [
    "documents_collection", "application_form", "offer_received_unconditional", "offer_received_conditional",
    "offer_accepted", "offer_rejected", "visa_lodgement", "visa_accepted", "visa_refused"]

  function OneOf(value: Option<string>, allowed: seq<string>): Option<string> {
    if value.Some? && value.value in allowed then value else None
  }

  /** The unambiguous legacy labels; anything else stays unmapped. */
  function LegacyState(key: string): Option<string> {
    if key == "visa accepted" || key == "visa granted" then Some("visa_accepted")
    else if key == "visa refused" || key == "visa rejected" then Some("visa_refused")
    else if key == "visa lodgement" || key == "visa lodged" then Some("visa_lodgement")
    else if key == "offer received - unconditional" || key == "unconditional offer" then
      Some("offer_received_unconditional")
    else if key == "offer received - conditional" || key == "conditional offer" then Some("offer_received_conditional")
    else if key == "offer accepted" then Some("offer_accepted")
    else if key == "offer rejected" then Some("offer_rejected")
    else if key == "documents collection" || key == "document collection" then Some("documents_collection")
    else if key == "application form" then Some("application_form")
    else None
  }

  function LowerChar(c: char): char {
    if 'A' <= c <= 'Z' then (c as int + 32) as char else c
  }

  function Lower(s: string): (l: string)
    ensures |l| == |s| && forall i :: 0 <= i < |s| ==> l[i] == LowerChar(s[i])
  {
    seq(|s|, i requires 0 <= i < |s| => LowerChar(s[i]))
  }

  /** `replace(/\s+/g, ' ')`: every run of white space becomes one blank. */
  function Collapse(s: string): string
    decreases |s|
  {
    if s == "" then ""
    else if IsSpace(s[0]) then
      TrimStartTrims(s);
      TrimStartShrinks(s);
      " " + Collapse(TrimStart(s))
    else [s[0]] + Collapse(s[1..])
  }

  function Normalize(s: string): string {
    Collapse(Lower(Trim(s)))
  }

  function LeadCourseState(stateV2: Option<string>, legacy: Option<string>): Option<string> {
    var typed := OneOf(stateV2, LEAD_COURSE_STATES);
    if typed.Some? then typed
    else if legacy.Some? && legacy.value != "" then LegacyState(Normalize(legacy.value))
    else None
  }

  lemma {:induction false} TrimStartShrinks(s: string)
    ensures |TrimStart(s)| <= |s| && (s != "" && IsSpace(s[0]) ==> |TrimStart(s)| < |s|)
  {
    hide IsSpace;
    if s != "" && IsSpace(s[0]) {
      TrimStartShrinks(s[1..]);
    }
  }

  lemma {:induction false} TrimStartKeepsEnd(s: string)
    requires s != "" && !IsSpace(s[|s| - 1])
    ensures Trimmed(TrimStart(s)) && TrimStart(s) != ""
  {
    hide IsSpace;
    if IsSpace(s[0]) {
      assert s[1..][|s| - 2] == s[|s| - 1];
      TrimStartKeepsEnd(s[1..]);
    }
  }

  // ---- What normalising means: the words of the label, in lower case ----

  function WordLength(s: string): (n: nat)
    ensures n <= |s| && NoSpace(s[..n]) && (n < |s| ==> IsSpace(s[n]))
  {
    if s == "" || IsSpace(s[0]) then 0
    else
      var n := 1 + WordLength(s[1..]);
      assert s[..n] == [s[0]] + s[1..][..n - 1];
      n
  }

  predicate NoSpace(w: string) {
    forall i :: 0 <= i < |w| ==> !IsSpace(w[i])
  }

  predicate IsWord(w: string) {
    w != "" && NoSpace(w)
  }

  /** The maximal runs without white space. */
  function Words(s: string): (ws: seq<string>)
    ensures forall w :: w in ws ==> IsWord(w)
    decreases |s|
  {
    var t := TrimStart(s);
    if t == "" then []
    else
      TrimStartTrims(s);
      TrimStartShrinks(s);
      [t[..WordLength(t)]] + Words(t[WordLength(t)..])
  }

  function Join(ws: seq<string>): string {
    if ws == [] then "" else if |ws| == 1 then ws[0] else ws[0] + " " + Join(ws[1..])
  }

  lemma {:induction false} CollapseWord(w: string, rest: string)
    requires NoSpace(w)
    ensures Collapse(w + rest) == w + Collapse(rest)
  {
    hide IsSpace;
    if w == "" {
      assert w + rest == rest;
    } else {
      CollapseWord(w[1..], rest);
      assert (w + rest)[1..] == w[1..] + rest;
    }
  }

  lemma WordsSkipSpace(s: string)
    ensures Words(TrimStart(s)) == Words(s)
  {
    TrimStartTrims(s);
  }

  lemma {:induction false} CollapseJoinsWords(s: string)
    requires Trimmed(s)
    ensures Collapse(s) == Join(Words(s))
    decreases |s|
  {
    hide IsSpace;
    if s != "" {
      var n := WordLength(s);
      var w, rest := s[..n], s[n..];
      assert w + rest == s && TrimStart(s) == s;
      CollapseWord(w, rest);
      if rest != "" {
        TrimStartShrinks(rest);
        TrimStartKeepsEnd(rest);
        CollapseJoinsWords(TrimStart(rest));
        WordsSkipSpace(rest);
        assert Words(s) == [w] + Words(rest) && Words(rest) != [];
      } else {
        assert Words(rest) == [] && Words(s) == [w];
      }
    }
  }

  lemma {:induction false} SpaceOnly(s: string)
    requires forall i :: 0 <= i < |s| ==> IsSpace(s[i])
    ensures TrimStart(s) == ""
  {
    if s != "" {
      SpaceOnly(s[1..]);
    }
  }

  lemma {:induction false} WordsDropLastSpace(s: string, c: char)
    requires IsSpace(c)
    ensures Words(s + [c]) == Words(s)
    decreases |s|
  {
    hide IsSpace;
    var t := TrimStart(s);
    TrimStartTrims(s);
    TrimStartShrinks(s);
    TrimStartAppend(s, c);
    if t == "" {
      SpaceOnly([c]);
    } else {
      var n := WordLength(t);
      WordLengthAppend(t, c);
      assert (t + [c])[..n] == t[..n] && (t + [c])[n..] == t[n..] + [c];
      WordsDropLastSpace(t[n..], c);
      assert TrimStart(s + [c]) == t + [c];
    }
  }

  lemma {:induction false} TrimStartAppend(s: string, c: char)
    requires IsSpace(c)
    ensures TrimStart(s + [c]) == if TrimStart(s) == "" then "" else TrimStart(s) + [c]
  {
    hide IsSpace;
    if s == "" {
      assert s + [c] == [c] && [c][1..] == "";
    } else if IsSpace(s[0]) {
      assert (s + [c])[1..] == s[1..] + [c];
      TrimStartAppend(s[1..], c);
    }
  }

  lemma {:induction false} WordLengthAppend(t: string, c: char)
    requires IsSpace(c)
    ensures WordLength(t + [c]) == WordLength(t)
  {
    hide IsSpace;
    if t != "" && !IsSpace(t[0]) {
      assert (t + [c])[1..] == t[1..] + [c];
      WordLengthAppend(t[1..], c);
    }
  }

  lemma {:induction false} WordsOfTrim(s: string)
    ensures Words(Trim(s)) == Words(s)
  {
    WordsOfTrimEnd(TrimStart(s));
    WordsSkipSpace(s);
  }

  lemma {:induction false} WordsOfTrimEnd(s: string)
    ensures Words(TrimEnd(s)) == Words(s)
  {
    hide IsSpace;
    if s != "" && IsSpace(s[|s| - 1]) {
      var front := s[..|s| - 1];
      assert s == front + [s[|s| - 1]];
      WordsOfTrimEnd(front);
      WordsDropLastSpace(front, s[|s| - 1]);
    }
  }

  /** Lower-casing moves no space, so it commutes with trimming. */
  lemma {:induction false} LowerTrimStart(s: string)
    ensures TrimStart(Lower(s)) == Lower(TrimStart(s))
  {
    if s != "" && IsSpace(s[0]) {
      assert Lower(s)[1..] == Lower(s[1..]);
      LowerTrimStart(s[1..]);
    }
  }

  lemma {:induction false} LowerTrimEnd(s: string)
    ensures TrimEnd(Lower(s)) == Lower(TrimEnd(s))
  {
    if s != "" && IsSpace(s[|s| - 1]) {
      assert Lower(s)[..|s| - 1] == Lower(s[..|s| - 1]);
      LowerTrimEnd(s[..|s| - 1]);
    }
  }

  /** Normalising a label keeps exactly its words, in lower case, one blank apart. */
  lemma NormalizeJoinsWords(s: string)
    ensures Normalize(s) == Join(Words(Lower(s)))
  {
    LowerTrimStart(s);
    LowerTrimEnd(TrimStart(s));
    TrimIdempotent(Lower(s));
    CollapseJoinsWords(Trim(Lower(s)));
    WordsOfTrim(Lower(s));
  }

  lemma {:induction false} WordLengthOf(w: string, rest: string)
    requires NoSpace(w) && (rest != "" ==> IsSpace(rest[0]))
    ensures WordLength(w + rest) == |w|
  {
    hide IsSpace;
    if w != "" {
      assert (w + rest)[1..] == w[1..] + rest;
      WordLengthOf(w[1..], rest);
    } else {
      assert w + rest == rest;
    }
  }

  lemma {:induction false} JoinSplits(ws: seq<string>)
    requires forall w :: w in ws ==> IsWord(w)
    ensures Words(Join(ws)) == ws
  {
    if ws != [] {
      var w, tail := ws[0], ws[1..];
      assert w in ws;
      var rest := if tail == [] then "" else " " + Join(tail);
      assert Join(ws) == w + rest && TrimStart(Join(ws)) == Join(ws);
      WordLengthOf(w, rest);
      assert (w + rest)[..|w|] == w && (w + rest)[|w|..] == rest;
      if tail != [] {
        JoinSplits(tail);
        assert rest[1..] == Join(tail) && TrimStart(rest) == TrimStart(Join(tail));
        WordsSkipSpace(Join(tail));
        WordsSkipSpace(rest);
      }
      assert Words(rest) == tail;
    }
  }

  /**
   * Two labels are the same to the ingest exactly when they have the same words up to case; doing it twice changes
   * nothing.
   */
  lemma NormalizeExact(a: string, b: string)
    ensures Normalize(a) == Normalize(b) <==> Words(Lower(a)) == Words(Lower(b))
    ensures Words(Normalize(a)) == Words(Lower(a))
  {
    NormalizeJoinsWords(a);
    NormalizeJoinsWords(b);
    JoinSplits(Words(Lower(a)));
    JoinSplits(Words(Lower(b)));
  }

  /**
   * Exactly which states seed a fee: the typed one, or, with no valid typed one, the two words of an unambiguous
   * label.
   */
  lemma VisaAcceptedExact(stateV2: Option<string>, legacy: Option<string>)
    ensures LeadCourseState(stateV2, legacy) == Some("visa_accepted") <==>
      if stateV2.Some? && stateV2.value in LEAD_COURSE_STATES then stateV2.value == "visa_accepted"
      else legacy.Some? && Words(Lower(legacy.value)) in [["visa", "accepted"], ["visa", "granted"]]
  {
    hide Normalize, Words, Lower, Join, LegacyState;
    assert LEAD_COURSE_STATES[7] == "visa_accepted";
    LegacyAccepted();
    NoWords();
    if legacy.Some? {
      SeedingLabel(legacy.value);
    }
  }

  /** Every other state: a typed one of the nine stands, and the label is consulted only without one. */
  lemma StateExact(stateV2: Option<string>, legacy: Option<string>)
    ensures stateV2.Some? && stateV2.value in LEAD_COURSE_STATES ==> LeadCourseState(stateV2, legacy) == stateV2
    ensures !(stateV2.Some? && stateV2.value in LEAD_COURSE_STATES) ==>
      LeadCourseState(stateV2, legacy) == if legacy.Some? && legacy.value != "" then LegacyState(Normalize(legacy.value)) else None
  {
  }

  lemma LabelLengths()
    ensures |"visa accepted"| == 13 && |"visa granted"| == 12 && |"visa refused"| == 12 && |"visa rejected"| == 13
    ensures |"visa lodgement"| == 14 && |"visa lodged"| == 11 && |"offer received - unconditional"| == 30
    ensures |"unconditional offer"| == 19 && |"offer received - conditional"| == 28
    ensures |"conditional offer"| == 17 && |"offer accepted"| == 14 && |"offer rejected"| == 14
    ensures |"documents collection"| == 20 && |"document collection"| == 19 && |"application form"| == 16
  {
  }

  /** Every label of a visa outcome. */
  lemma VisaLabels()
    ensures LegacyState("visa accepted") == Some("visa_accepted")
    ensures LegacyState("visa granted") == Some("visa_accepted")
    ensures LegacyState("visa refused") == Some("visa_refused")
    ensures LegacyState("visa rejected") == Some("visa_refused")
    ensures LegacyState("visa lodgement") == Some("visa_lodgement")
    ensures LegacyState("visa lodged") == Some("visa_lodgement")
  {
    LabelLengths();
    assert "visa accepted"[5] != "visa rejected"[5];
    assert "visa granted"[5] != "visa refused"[5];
    assert "visa lodgement"[0] != "offer accepted"[0];
    assert "visa lodgement"[0] != "offer rejected"[0];
  }

  /** Every label of an offer received. */
  lemma OfferLabels()
    ensures LegacyState("offer received - unconditional") == Some("offer_received_unconditional")
    ensures LegacyState("unconditional offer") == Some("offer_received_unconditional")
    ensures LegacyState("offer received - conditional") == Some("offer_received_conditional")
    ensures LegacyState("conditional offer") == Some("offer_received_conditional")
  {
    LabelLengths();
    assert "unconditional offer"[0] != "document collection"[0];
  }

  /** Every label of an offer decided, and of the paperwork. */
  lemma DecisionLabels()
    ensures LegacyState("offer accepted") == Some("offer_accepted")
    ensures LegacyState("offer rejected") == Some("offer_rejected")
    ensures LegacyState("documents collection") == Some("documents_collection")
    ensures LegacyState("document collection") == Some("documents_collection")
    ensures LegacyState("application form") == Some("application_form")
  {
    LabelLengths();
    assert "offer accepted"[0] != "visa lodgement"[0];
    assert "offer accepted"[6] != "offer rejected"[6];
    assert "offer rejected"[0] != "visa lodgement"[0];
    assert "document collection"[0] != "unconditional offer"[0];
  }

  /** And no other label is mapped. */
  lemma OtherLabels(key: string)
    requires key !in [
      "visa accepted", "visa granted", "visa refused", "visa rejected", "visa lodgement", "visa lodged",
      "offer received - unconditional", "unconditional offer", "offer received - conditional",
      "conditional offer", "offer accepted", "offer rejected", "documents collection", "document collection",
      "application form"]
    ensures LegacyState(key) == None
  {
  }

  /** Lower-casing moves A to Z onto a to z and leaves everything else. */
  lemma LowerExact(c: char)
    ensures LowerChar('A') == 'a' && LowerChar('Z') == 'z'
    ensures LowerChar(c) as int - c as int == if 'A' <= c <= 'Z' then 'a' as int - 'A' as int else 0
  {
  }

  lemma SeedingLabel(text: string)
    ensures Normalize(text) in ["visa accepted", "visa granted"] <==>
      Words(Lower(text)) in [["visa", "accepted"], ["visa", "granted"]]
  {
    hide Normalize, Words, Lower, Join;
    var ws, accepted, granted := Words(Lower(text)), ["visa", "accepted"], ["visa", "granted"];
    NormalizeJoinsWords(text);
    JoinSplits(ws);
    JoinSplits(accepted);
    JoinSplits(granted);
    TwoWords("visa", "accepted");
    TwoWords("visa", "granted");
    assert "visa" + " " + "accepted" == "visa accepted" && "visa" + " " + "granted" == "visa granted";
  }

  lemma TwoWords(a: string, b: string)
    ensures Join([a, b]) == a + " " + b
  {
    assert [a, b][1..] == [b];
  }

  lemma NoWords()
    ensures Words(Lower("")) == []
  {
  }

  lemma LegacyAccepted()
    ensures forall key :: LegacyState(key) == Some("visa_accepted") <==> key in ["visa accepted", "visa granted"]
  {
    assert |"visa_accepted"| == 13 && |"visa_refused"| == 12 && |"visa_lodgement"| == 14 && |"offer_accepted"| == 14;
    assert |"offer_received_unconditional"| == 28 && |"offer_received_conditional"| == 26 && |"offer_rejected"| == 14;
    assert |"documents_collection"| == 20 && |"application_form"| == 16;
  }

  // ---- The fee table ----

  type Uuid = nat

  /** `course` is the v2 course id; old seeds and manual fees have none. */
  datatype Fee = Fee(lead: Uuid, course: Option<int>, name: string, amount: int, currency: string, dueOn: int,
                     status: string, seeded: bool, deleted: bool)
  {
    /** The rows both partial indexes cover. */
    predicate Live() { seeded && !deleted }
  }

  predicate SameCourse(f: Fee, g: Fee) {
    f.Live() && g.Live() && f.lead == g.lead && f.course.Some? && f.course == g.course
  }

  predicate SameName(f: Fee, g: Fee) {
    f.Live() && g.Live() && f.lead == g.lead && f.name == g.name
  }

  predicate Clash(f: Fee, g: Fee) {
    SameCourse(f, g) || SameName(f, g)
  }

  /** What the two unique indexes keep true of the table, whoever writes to it. */
  ghost predicate Unique(fees: seq<Fee>) {
    forall i, j :: 0 <= i < j < |fees| ==> !Clash(fees[i], fees[j])
  }

  predicate Accepts(fees: seq<Fee>, f: Fee) {
    f.amount >= 0 && forall i :: 0 <= i < |fees| ==> !Clash(fees[i], f)
  }

  /** INSERT ... ON CONFLICT DO NOTHING; a negative amount violates a check and the error is only logged. */
  function Insert(fees: seq<Fee>, f: Fee): seq<Fee> {
    if Accepts(fees, f) then fees + [f] else fees
  }

  /** Which rows exclude each other: live seeded fees of one lead with one course id, or with one label. */
  lemma ClashExact(f: Fee, g: Fee)
    ensures Clash(f, g) <==>
      && f.seeded && !f.deleted && g.seeded && !g.deleted && f.lead == g.lead
      && ((f.course.Some? && g.course.Some? && f.course.value == g.course.value) || f.name == g.name)
  {
  }

  /** An insert lands exactly if the amount is not negative and it clashes with no row. */
  lemma InsertExact(fees: seq<Fee>, f: Fee)
    ensures Insert(fees, f) == if f.amount >= 0 && forall i :: 0 <= i < |fees| ==> !Clash(fees[i], f) then fees + [f] else fees
  {
  }

  datatype Course = Course(id: int, name: string, feeAmount: Option<string>, feeCurrency: Option<string>)
  datatype LeadCourse = LeadCourse(lead: int, course: int, state: Option<string>, stateV2: Option<string>,
                                   startDate: Option<int>)

  /** Currency digits come from Intl and upper-casing from the runtime: both are parameters. */
  datatype Config = Config(defaultCurrency: string, minorDigits: string -> nat, upper: string -> string)

  function FindCourse(courses: seq<Course>, id: int): (c: Option<Course>)
    ensures c.Some? ==> c.value in courses && c.value.id == id
    ensures c.None? ==> forall d :: d in courses ==> d.id != id
  {
    if courses == [] then None else if courses[0].id == id then Some(courses[0]) else FindCourse(courses[1..], id)
  }

  /** `find` takes the first. */
  lemma {:induction false} FindsFirst(courses: seq<Course>, id: int) returns (i: nat)
    requires FindCourse(courses, id).Some?
    ensures i < |courses| && FindCourse(courses, id) == Some(courses[i]) && forall j :: 0 <= j < i ==> courses[j].id != id
  {
    if courses[0].id == id {
      i := 0;
    } else {
      var k := FindsFirst(courses[1..], id);
      i := k + 1;
      assert forall j :: 0 < j < i ==> courses[j] == courses[1..][j - 1];
    }
  }

  function Or(a: Option<string>, fallback: string): string {
    if a.Some? then a.value else fallback
  }

  function Prefix3(s: string): string {
    if |s| > 3 then s[..3] else s
  }

  /** The fee this lead-course calls for, if its state, date, lead and amount allow one. */
  function Wanted(courses: seq<Course>, leads: map<int, Uuid>, cfg: Config, lc: LeadCourse): Option<Fee> {
    var course := FindCourse(courses, lc.course);
    if LeadCourseState(lc.stateV2, lc.state) != Some("visa_accepted") || lc.startDate.None? then None
    else if lc.lead !in leads || course.None? then None
    else
      var currency := Or(course.value.feeCurrency, cfg.defaultCurrency);
      match Money.DecimalToMinor(course.value.feeAmount, cfg.minorDigits(currency))
      case None => None
      case Some(amount) =>
        var name := if course.value.name != "" then course.value.name + " \U{2014} Session 1" else "V2 session fee";
        Some(Fee(leads[lc.lead], Some(lc.course), name, amount, cfg.upper(Prefix3(currency)), lc.startDate.value, "SCHEDULED", true, false))
  }

  /** What a wanted fee is, field by field. */
  lemma WantedExact(courses: seq<Course>, leads: map<int, Uuid>, cfg: Config, lc: LeadCourse, c: Course)
    requires FindCourse(courses, lc.course) == Some(c) && Wanted(courses, leads, cfg, lc).Some?
    ensures var f := Wanted(courses, leads, cfg, lc).value;
      var currency := if c.feeCurrency.Some? then c.feeCurrency.value else cfg.defaultCurrency;
      && lc.lead in leads && f.lead == leads[lc.lead] && f.course == Some(lc.course)
      && f.name == (if c.name == "" then "V2 session fee" else c.name + " \U{2014} Session 1")
      && Money.DecimalToMinor(c.feeAmount, cfg.minorDigits(currency)) == Some(f.amount)
      && f.currency == cfg.upper(if |currency| <= 3 then currency else currency[..3])
      && lc.startDate == Some(f.dueOn) && f.status == "SCHEDULED" && f.seeded && !f.deleted
  {
    hide LeadCourseState, FindCourse;
  }

  function AllWanted(courses: seq<Course>, leads: map<int, Uuid>, cfg: Config, lcs: seq<LeadCourse>): seq<Fee> {
    if lcs == [] then []
    else
      var front, w := AllWanted(courses, leads, cfg, lcs[..|lcs| - 1]), Wanted(courses, leads, cfg, lcs[|lcs| - 1]);
      if w.Some? then front + [w.value] else front
  }

  /** The table after one pass over the wanted fees; fails(i) says whether the i-th transaction is lost. */
  function SeedAll(fees: seq<Fee>, wanted: seq<Fee>, fails: nat -> bool): seq<Fee> {
    if wanted == [] then fees
    else
      var n := |wanted| - 1;
      var front := SeedAll(fees, wanted[..n], fails);
      if fails(n) then front else Insert(front, wanted[n])
  }

  /** One more wanted fee is one more insert, unless its transaction is lost; without any nothing changes. */
  lemma SeedOneMore(fees: seq<Fee>, wanted: seq<Fee>, w: Fee, fails: nat -> bool)
    ensures SeedAll(fees, [], fails) == fees
    ensures SeedAll(fees, wanted + [w], fails) ==
      if fails(|wanted|) then SeedAll(fees, wanted, fails) else Insert(SeedAll(fees, wanted, fails), w)
  {
    assert (wanted + [w])[..|wanted|] == wanted;
  }

  class FeeTable {
    var fees: seq<Fee>

    constructor (fees: seq<Fee>)
      ensures this.fees == fees
    {
      this.fees := fees;
    }

    /** Seeding: the table becomes SeedAll, existing rows stay in place, and the counter is what was added. */
    method SeedFees(courses: seq<Course>, lcs: seq<LeadCourse>, leads: map<int, Uuid>, cfg: Config, fails: nat -> bool)
      returns (feesSeeded: nat)
      modifies this
      ensures fees == SeedAll(old(fees), AllWanted(courses, leads, cfg, lcs), fails)
      ensures old(fees) <= fees && feesSeeded == |fees| - |old(fees)|
    {
      hide Wanted, Accepts;
      feesSeeded := 0;
      ghost var wanted: seq<Fee> := [];
      var attempt := 0;
      for i := 0 to |lcs|
        invariant wanted == AllWanted(courses, leads, cfg, lcs[..i]) && attempt == |wanted|
        invariant fees == SeedAll(old(fees), wanted, fails)
        invariant old(fees) <= fees && feesSeeded == |fees| - |old(fees)|
      {
        assert lcs[..i + 1][..i] == lcs[..i];
        var w := Wanted(courses, leads, cfg, lcs[i]);
        if w.None? {
          continue;
        }
        assert (wanted + [w.value])[..|wanted|] == wanted;
        wanted := wanted + [w.value];
        if !fails(attempt) && Accepts(fees, w.value) {
          fees := fees + [w.value];
          feesSeeded := feesSeeded + 1;
        }
        attempt := attempt + 1;
      }
      assert lcs[..|lcs|] == lcs;
    }
  }

  // ---- One pass ----

  /** What a wanted fee says about the row it came from. */
  ghost predicate Grounded(courses: seq<Course>, leads: map<int, Uuid>, cfg: Config, lcs: seq<LeadCourse>, f: Fee) {
    exists lc :: lc in lcs && LeadCourseState(lc.stateV2, lc.state) == Some("visa_accepted")
      && lc.lead in leads && f.lead == leads[lc.lead] && f.course == Some(lc.course) && lc.startDate == Some(f.dueOn)
      && FindCourse(courses, lc.course).Some? && PricedBy(FindCourse(courses, lc.course).value, cfg, f)
  }

  /** Amount, currency and label depend on the course alone. */
  predicate PricedBy(c: Course, cfg: Config, f: Fee) {
    var currency := Or(c.feeCurrency, cfg.defaultCurrency);
    && Money.DecimalToMinor(c.feeAmount, cfg.minorDigits(currency)) == Some(f.amount)
    && f.currency == cfg.upper(Prefix3(currency))
    && f.name == (if c.name != "" then c.name + " \U{2014} Session 1" else "V2 session fee")
    && f.Live() && f.status == "SCHEDULED"
  }

  lemma {:induction false} WantedAreGrounded(courses: seq<Course>, leads: map<int, Uuid>, cfg: Config,
      lcs: seq<LeadCourse>)
    ensures forall f :: f in AllWanted(courses, leads, cfg, lcs) ==> Grounded(courses, leads, cfg, lcs, f)
  {
    hide LeadCourseState, FindCourse, PricedBy;
    if lcs != [] {
      var front, last := lcs[..|lcs| - 1], lcs[|lcs| - 1];
      assert lcs == front + [last];
      WantedAreGrounded(courses, leads, cfg, front);
      forall f | f in AllWanted(courses, leads, cfg, lcs) ensures Grounded(courses, leads, cfg, lcs, f) {
        if f in AllWanted(courses, leads, cfg, front) {
          assert Grounded(courses, leads, cfg, front, f);
        } else {
          WantedIsPriced(courses, leads, cfg, last);
          assert last in lcs;
        }
      }
    }
  }

  /** And nothing is missed: every visa-accepted lead-course with a date, a mapped lead and a priced course is wanted. */
  lemma {:induction false} AllAreWanted(courses: seq<Course>, leads: map<int, Uuid>, cfg: Config, lcs: seq<LeadCourse>,
                                        lc: LeadCourse)
    requires lc in lcs && LeadCourseState(lc.stateV2, lc.state) == Some("visa_accepted")
    requires lc.startDate.Some? && lc.lead in leads && FindCourse(courses, lc.course).Some?
    requires var course := FindCourse(courses, lc.course).value;
      Money.DecimalToMinor(course.feeAmount, cfg.minorDigits(Or(course.feeCurrency, cfg.defaultCurrency))).Some?
    ensures exists f :: f in AllWanted(courses, leads, cfg, lcs) && WantedFor(courses, leads, cfg, lc, f)
  {
    hide LeadCourseState, FindCourse, Wanted, WantedFor;
    var n := |lcs| - 1;
    if lc == lcs[n] {
      QualifiesIsWanted(courses, leads, cfg, lc);
      var front, f := AllWanted(courses, leads, cfg, lcs[..n]), Wanted(courses, leads, cfg, lc).value;
      assert AllWanted(courses, leads, cfg, lcs) == front + [f] && (front + [f])[|front|] == f;
    } else {
      assert lcs == lcs[..n] + [lcs[n]];
      AllAreWanted(courses, leads, cfg, lcs[..n], lc);
      var f :| f in AllWanted(courses, leads, cfg, lcs[..n]) && WantedFor(courses, leads, cfg, lc, f);
      WantedGrows(courses, leads, cfg, lcs, f);
    }
  }

  lemma WantedGrows(courses: seq<Course>, leads: map<int, Uuid>, cfg: Config, lcs: seq<LeadCourse>, f: Fee)
    requires lcs != [] && f in AllWanted(courses, leads, cfg, lcs[..|lcs| - 1])
    ensures f in AllWanted(courses, leads, cfg, lcs)
  {
    hide Wanted;
  }

  lemma QualifiesIsWanted(courses: seq<Course>, leads: map<int, Uuid>, cfg: Config, lc: LeadCourse)
    requires LeadCourseState(lc.stateV2, lc.state) == Some("visa_accepted")
    requires lc.startDate.Some? && lc.lead in leads && FindCourse(courses, lc.course).Some?
    requires var course := FindCourse(courses, lc.course).value;
      Money.DecimalToMinor(course.feeAmount, cfg.minorDigits(Or(course.feeCurrency, cfg.defaultCurrency))).Some?
    ensures var w := Wanted(courses, leads, cfg, lc); w.Some? && WantedFor(courses, leads, cfg, lc, w.value)
  {
    hide LeadCourseState, FindCourse, PricedBy;
    WantedIsPriced(courses, leads, cfg, lc);
  }

  ghost predicate WantedFor(courses: seq<Course>, leads: map<int, Uuid>, cfg: Config, lc: LeadCourse, f: Fee) {
    && lc.lead in leads && f.lead == leads[lc.lead] && f.course == Some(lc.course) && lc.startDate == Some(f.dueOn)
    && FindCourse(courses, lc.course).Some? && PricedBy(FindCourse(courses, lc.course).value, cfg, f)
  }

  lemma WantedIsPriced(courses: seq<Course>, leads: map<int, Uuid>, cfg: Config, lc: LeadCourse)
    ensures var w := Wanted(courses, leads, cfg, lc);
      w.Some? ==> FindCourse(courses, lc.course).Some? && PricedBy(FindCourse(courses, lc.course).value, cfg, w.value)
  {
  }

  /** A pass appends, keeps both indexes, and every new row is a wanted fee with a non-negative amount. */
  lemma {:induction false} PassFacts(fees: seq<Fee>, wanted: seq<Fee>, fails: nat -> bool)
    ensures var after := SeedAll(fees, wanted, fails);
      && fees <= after
      && (Unique(fees) ==> Unique(after))
      && (forall i :: |fees| <= i < |after| ==> after[i] in wanted && after[i].amount >= 0)
  {
    hide Clash;
    if wanted != [] {
      PassFacts(fees, wanted[..|wanted| - 1], fails);
    }
  }

  /** After a pass that loses nothing, every wanted fee is there or clashes with one that is. */
  lemma {:induction false} CleanPassCovers(fees: seq<Fee>, wanted: seq<Fee>, fails: nat -> bool, w: Fee)
    requires (forall i :: !fails(i)) && w in wanted && w.amount >= 0 && w.Live() && w.course.Some?
    ensures exists f :: f in SeedAll(fees, wanted, fails) && Clash(f, w)
  {
    var n := |wanted| - 1;
    var front, after := SeedAll(fees, wanted[..n], fails), SeedAll(fees, wanted, fails);
    if w == wanted[n] {
      if Accepts(front, w) {
        assert after[|after| - 1] == w && Clash(w, w);
      }
    } else {
      assert wanted == wanted[..n] + [wanted[n]];
      CleanPassCovers(fees, wanted[..n], fails, w);
      var f :| f in front && Clash(f, w);
      assert f in after;
    }
  }

  ghost predicate HasFee(fees: seq<Fee>, lead: Uuid, course: Option<int>) {
    exists i :: 0 <= i < |fees| && fees[i].Live() && fees[i].lead == lead && fees[i].course.Some? && fees[i].course == course
  }

  /** The fees this pass should still provide. */
  ghost predicate Missing(fees: seq<Fee>, wanted: seq<Fee>, w: Fee) {
    w in wanted && w.amount >= 0 && !HasFee(fees, w.lead, w.course)
  }

  /**
   * The label of every missing fee is free: no seeded fee of the lead has it, and no other missing fee of the lead
   * wants it.
   */
  ghost predicate LabelsFree(fees: seq<Fee>, wanted: seq<Fee>) {
    && (forall w, i :: Missing(fees, wanted, w) && 0 <= i < |fees| ==> !SameName(fees[i], w))
    && (forall v, w :: Missing(fees, wanted, v) && Missing(fees, wanted, w) && v.course != w.course ==> !SameName(v, w))
  }

  ghost predicate AllCovered(fees: seq<Fee>, wanted: seq<Fee>) {
    forall w :: w in wanted && w.amount >= 0 ==> HasFee(fees, w.lead, w.course)
  }

  /** Wanted fees of one pass: live, with a course, and labelled by the course. */
  ghost predicate Consistent(wanted: seq<Fee>) {
    && (forall w :: w in wanted ==> w.Live() && w.course.Some?)
    && (forall v, w :: v in wanted && w in wanted && v.course == w.course ==> v.name == w.name)
  }

  lemma WantedConsistent(courses: seq<Course>, leads: map<int, Uuid>, cfg: Config, lcs: seq<LeadCourse>)
    ensures Consistent(AllWanted(courses, leads, cfg, lcs))
  {
    hide LeadCourseState, FindCourse;
    WantedAreGrounded(courses, leads, cfg, lcs);
  }

  /**
   * The retained label index still gates seeding: a pass that loses nothing gives every wanted course its fee if and only
   * if the labels are free. Otherwise a second course with the same name is silently skipped.
   */
  lemma EveryCourseSeeded(fees: seq<Fee>, wanted: seq<Fee>, fails: nat -> bool)
    requires (forall i :: !fails(i)) && Unique(fees) && Consistent(wanted)
    ensures AllCovered(SeedAll(fees, wanted, fails), wanted) <==> LabelsFree(fees, wanted)
  {
    hide SeedAll;
    if LabelsFree(fees, wanted) {
      forall w | w in wanted && w.amount >= 0 ensures HasFee(SeedAll(fees, wanted, fails), w.lead, w.course) {
        FreeLabelSeeds(fees, wanted, fails, w);
      }
    }
    if AllCovered(SeedAll(fees, wanted, fails), wanted) {
      CoveredMeansFree(fees, wanted, fails);
    }
  }

  lemma FreeLabelSeeds(fees: seq<Fee>, wanted: seq<Fee>, fails: nat -> bool, w: Fee)
    requires (forall i :: !fails(i)) && Unique(fees) && Consistent(wanted) && LabelsFree(fees, wanted)
    requires w in wanted && w.amount >= 0
    ensures HasFee(SeedAll(fees, wanted, fails), w.lead, w.course)
  {
    hide SeedAll;
    var after := SeedAll(fees, wanted, fails);
    PassFacts(fees, wanted, fails);
    CleanPassCovers(fees, wanted, fails, w);
    var f :| f in after && Clash(f, w);
    var i :| 0 <= i < |after| && after[i] == f;
    if HasFee(fees, w.lead, w.course) {
      var j :| 0 <= j < |fees| && fees[j].Live() && fees[j].lead == w.lead && fees[j].course.Some? && fees[j].course == w.course;
      assert after[j] == fees[j];
    } else {
      FreeOfRivals(fees, wanted, fails, w, i);
    }
  }

  /** Under LabelsFree no row of another course, old or new, has the label of a missing fee. */
  lemma FreeOfRivals(fees: seq<Fee>, wanted: seq<Fee>, fails: nat -> bool, w: Fee, i: nat)
    requires Unique(fees) && Consistent(wanted) && LabelsFree(fees, wanted) && Missing(fees, wanted, w)
    requires i < |SeedAll(fees, wanted, fails)|
    ensures var f := SeedAll(fees, wanted, fails)[i]; f.course != w.course ==> !SameName(f, w)
  {
    hide SeedAll;
    PassFacts(fees, wanted, fails);
    if i < |fees| {
      assert fees[i] == SeedAll(fees, wanted, fails)[i];
    } else {
      NewIsMissing(fees, wanted, fails, i);
    }
  }

  lemma NewIsMissing(fees: seq<Fee>, wanted: seq<Fee>, fails: nat -> bool, i: nat)
    requires Unique(fees) && Consistent(wanted) && |fees| <= i < |SeedAll(fees, wanted, fails)|
    ensures Missing(fees, wanted, SeedAll(fees, wanted, fails)[i])
  {
    hide SeedAll;
    var after := SeedAll(fees, wanted, fails);
    PassFacts(fees, wanted, fails);
    forall j | 0 <= j < |fees| ensures !SameCourse(fees[j], after[i]) {
      assert !Clash(after[j], after[i]);
    }
  }

  lemma FoundNew(fees: seq<Fee>, wanted: seq<Fee>, fails: nat -> bool, w: Fee) returns (i: nat)
    requires Unique(fees) && Consistent(wanted) && Missing(fees, wanted, w)
    requires HasFee(SeedAll(fees, wanted, fails), w.lead, w.course)
    ensures |fees| <= i < |SeedAll(fees, wanted, fails)|
    ensures SameCourse(SeedAll(fees, wanted, fails)[i], w) && SeedAll(fees, wanted, fails)[i].name == w.name
  {
    hide SeedAll;
    var after := SeedAll(fees, wanted, fails);
    PassFacts(fees, wanted, fails);
    i :| 0 <= i < |after| && after[i].Live() && after[i].lead == w.lead && after[i].course.Some? && after[i].course == w.course;
    assert forall j :: 0 <= j < |fees| ==> after[j] == fees[j];
  }

  lemma CoveredMeansFree(fees: seq<Fee>, wanted: seq<Fee>, fails: nat -> bool)
    requires Unique(fees) && Consistent(wanted) && AllCovered(SeedAll(fees, wanted, fails), wanted)
    ensures LabelsFree(fees, wanted)
  {
    hide SeedAll;
    var after := SeedAll(fees, wanted, fails);
    PassFacts(fees, wanted, fails);
    forall w, j | Missing(fees, wanted, w) && 0 <= j < |fees| ensures !SameName(fees[j], w) {
      var i := FoundNew(fees, wanted, fails, w);
      assert after[j] == fees[j] && !Clash(after[j], after[i]);
    }
    forall v, w | Missing(fees, wanted, v) && Missing(fees, wanted, w) && v.course != w.course ensures !SameName(v, w) {
      var i := FoundNew(fees, wanted, fails, v);
      var j := FoundNew(fees, wanted, fails, w);
      assert !Clash(after[i], after[j]) || !Clash(after[j], after[i]);
    }
  }

  /** No other fee, old or wanted, competes with f for the label of w. */
  ghost predicate OnlyRival(fees: seq<Fee>, wanted: seq<Fee>, f: Fee, w: Fee) {
    && (forall i :: 0 <= i < |fees| && SameName(fees[i], w) ==> fees[i] == f)
    && (forall v :: Missing(fees, wanted, v) && v.course != w.course ==> !SameName(v, w))
  }

  /**
   * A fee seeded before the course key carries no course. The course it was for gets a second fee if and only if it has been
   * renamed since: then neither index sees the old one.
   */
  lemma OldFeeExact(fees: seq<Fee>, wanted: seq<Fee>, fails: nat -> bool, f: Fee, w: Fee)
    requires (forall i :: !fails(i)) && Unique(fees) && Consistent(wanted)
    requires f in fees && f.Live() && f.course.None?
    requires Missing(fees, wanted, w) && w.lead == f.lead && OnlyRival(fees, wanted, f, w)
    ensures f in SeedAll(fees, wanted, fails)
    ensures HasFee(SeedAll(fees, wanted, fails), w.lead, w.course) <==> f.name != w.name
  {
    hide SeedAll;
    var after := SeedAll(fees, wanted, fails);
    PassFacts(fees, wanted, fails);
    var j :| 0 <= j < |fees| && fees[j] == f;
    assert after[j] == f;
    if HasFee(after, w.lead, w.course) {
      var i := FoundNew(fees, wanted, fails, w);
      NoTwoClash(after, j, i);
    }
    if f.name != w.name {
      RenamedSeeds(fees, wanted, fails, f, w);
    }
  }

  lemma RenamedSeeds(fees: seq<Fee>, wanted: seq<Fee>, fails: nat -> bool, f: Fee, w: Fee)
    requires (forall i :: !fails(i)) && Unique(fees) && Consistent(wanted)
    requires Missing(fees, wanted, w) && OnlyRival(fees, wanted, f, w) && f.name != w.name
    ensures HasFee(SeedAll(fees, wanted, fails), w.lead, w.course)
  {
    hide SeedAll;
    var after := SeedAll(fees, wanted, fails);
    PassFacts(fees, wanted, fails);
    CleanPassCovers(fees, wanted, fails, w);
    var g :| g in after && Clash(g, w);
    var i :| 0 <= i < |after| && after[i] == g;
    if i < |fees| {
      assert fees[i] == g;
    } else {
      NewIsMissing(fees, wanted, fails, i);
    }
  }

  /** So it is for the fees of any dump. */
  lemma DumpSeedsEveryCourse(fees: seq<Fee>, courses: seq<Course>, lcs: seq<LeadCourse>, leads: map<int, Uuid>,
                             cfg: Config, fails: nat -> bool)
    requires (forall i :: !fails(i)) && Unique(fees)
    ensures var wanted := AllWanted(courses, leads, cfg, lcs);
      AllCovered(SeedAll(fees, wanted, fails), wanted) <==> LabelsFree(fees, wanted)
  {
    hide SeedAll, AllWanted;
    WantedConsistent(courses, leads, cfg, lcs);
    EveryCourseSeeded(fees, AllWanted(courses, leads, cfg, lcs), fails);
  }

  /** Any number of passes over one dump, each losing what it loses. */
  function Passes(fees: seq<Fee>, wanted: seq<Fee>, losses: seq<nat -> bool>): seq<Fee> {
    if losses == [] then fees
    else SeedAll(Passes(fees, wanted, losses[..|losses| - 1]), wanted, losses[|losses| - 1])
  }

  lemma {:induction false} PassesFacts(fees: seq<Fee>, wanted: seq<Fee>, losses: seq<nat -> bool>)
    requires Unique(fees)
    ensures var after := Passes(fees, wanted, losses);
      && fees <= after && Unique(after)
      && forall i :: |fees| <= i < |after| ==> after[i] in wanted
  {
    hide Unique, SeedAll;
    if losses != [] {
      PassesFacts(fees, wanted, losses[..|losses| - 1]);
      PassFacts(Passes(fees, wanted, losses[..|losses| - 1]), wanted, losses[|losses| - 1]);
    }
  }

  /** The row that gives a missing fee is a new one, with the label of the course. */
  lemma NewRowOf(fees: seq<Fee>, wanted: seq<Fee>, after: seq<Fee>, w: Fee) returns (i: nat)
    requires fees <= after && Consistent(wanted) && Missing(fees, wanted, w) && HasFee(after, w.lead, w.course)
    requires forall i :: |fees| <= i < |after| ==> after[i] in wanted
    ensures i < |after| && SameCourse(after[i], w) && after[i].name == w.name
  {
    i :| 0 <= i < |after| && after[i].Live() && after[i].lead == w.lead && after[i].course.Some? && after[i].course == w.course;
    assert forall j :: 0 <= j < |fees| ==> after[j] == fees[j];
  }

  /**
   * Any two courses of one lead that share a label: however many passes run over the dump, and whatever they lose, at most
   * one of the two ever gets its fee.
   */
  lemma TwinCoursesGetOneFee(fees: seq<Fee>, wanted: seq<Fee>, losses: seq<nat -> bool>, a: Fee, b: Fee)
    requires Unique(fees) && Consistent(wanted) && Missing(fees, wanted, a) && Missing(fees, wanted, b)
    requires a.lead == b.lead && a.name == b.name && a.course != b.course
    ensures var after := Passes(fees, wanted, losses);
      !(HasFee(after, a.lead, a.course) && HasFee(after, b.lead, b.course))
  {
    hide Passes;
    var after := Passes(fees, wanted, losses);
    PassesFacts(fees, wanted, losses);
    if HasFee(after, a.lead, a.course) && HasFee(after, b.lead, b.course) {
      var i := NewRowOf(fees, wanted, after, a);
      var j := NewRowOf(fees, wanted, after, b);
      NoTwoClash(after, i, j);
    }
  }

  lemma NoTwoClash(fees: seq<Fee>, i: nat, j: nat)
    requires Unique(fees) && i < |fees| && j < |fees| && i != j
    ensures !SameName(fees[i], fees[j])
  {
    if i < j {
      assert !Clash(fees[i], fees[j]);
    } else {
      assert !Clash(fees[j], fees[i]);
    }
  }

  // ---- Every history ----

  /** A pass over some dump, or a write by another actor, which the database admits only if both indexes hold after it. */
  datatype Event = Seed(wanted: seq<Fee>, fails: nat -> bool) | Write(after: seq<Fee>)

  ghost predicate Admitted(e: Event) {
    match e
    case Seed(wanted, _) => Consistent(wanted)
    case Write(after) => Unique(after)
  }

  function Step(fees: seq<Fee>, e: Event): seq<Fee> {
    match e
    case Seed(wanted, fails) => SeedAll(fees, wanted, fails)
    case Write(after) => after
  }

  function Play(fees: seq<Fee>, events: seq<Event>): seq<Fee> {
    if events == [] then fees else Step(Play(fees, events[..|events| - 1]), events[|events| - 1])
  }

  /** Histories are what their last event makes of what came before. */
  lemma HistoryOneMore(fees: seq<Fee>, events: seq<Event>, wanted: seq<Fee>, fails: nat -> bool, after: seq<Fee>)
    ensures Play(fees, []) == fees && Play(fees, events + [Write(after)]) == after
    ensures Play(fees, events + [Seed(wanted, fails)]) == SeedAll(Play(fees, events), wanted, fails)
    ensures Passes(fees, wanted, []) == fees && Passes(fees, wanted, [fails]) == SeedAll(fees, wanted, fails)
  {
    hide SeedAll;
    assert (events + [Write(after)])[..|events|] == events && (events + [Seed(wanted, fails)])[..|events|] == events;
    assert [fails][..0] == [];
  }

  /** The live seeded fees of one lead and course. */
  function FeesOf(fees: seq<Fee>, lead: Uuid, course: int): seq<Fee> {
    if fees == [] then []
    else
      var last := fees[|fees| - 1];
      FeesOf(fees[..|fees| - 1], lead, course) + if last.Live() && last.lead == lead && last.course == Some(course) then [last] else []
  }

  lemma LastIsFirst(fees: seq<Fee>, lead: Uuid, course: int)
    requires Unique(fees) && fees != []
    requires fees[|fees| - 1].Live() && fees[|fees| - 1].lead == lead && fees[|fees| - 1].course == Some(course)
    ensures !HasFee(fees[..|fees| - 1], lead, Some(course))
  {
    forall i | 0 <= i < |fees| - 1 ensures !SameCourse(fees[i], fees[|fees| - 1]) {
      assert !Clash(fees[i], fees[|fees| - 1]);
    }
  }

  lemma {:induction false} FeesOfFacts(fees: seq<Fee>, lead: Uuid, course: int)
    ensures HasFee(fees, lead, Some(course)) <==> FeesOf(fees, lead, course) != []
    ensures Unique(fees) ==> |FeesOf(fees, lead, course)| <= 1
  {
    if fees != [] {
      var n := |fees| - 1;
      FeesOfFacts(fees[..n], lead, course);
      if fees[n].Live() && fees[n].lead == lead && fees[n].course == Some(course) && Unique(fees) {
        LastIsFirst(fees, lead, course);
      }
      if HasFee(fees, lead, Some(course)) && FeesOf(fees[..n], lead, course) == [] {
        var i :| 0 <= i < |fees| && fees[i].Live() && fees[i].lead == lead && fees[i].course == Some(course);
        assert i < n ==> fees[..n][i] == fees[i];
      }
      if HasFee(fees[..n], lead, Some(course)) {
        var i :| 0 <= i < n && fees[..n][i].Live() && fees[..n][i].lead == lead && fees[..n][i].course == Some(course);
        assert fees[i].Live() && fees[i].course == Some(course);
      }
    }
  }

  /**
   * Over every history of passes and other writes, a lead has at most one live seeded fee per course: renames, retries
   * and edits included.
   */
  lemma {:induction false} OneFeePerCourse(fees: seq<Fee>, events: seq<Event>, lead: Uuid, course: int)
    requires Unique(fees) && forall e :: e in events ==> Admitted(e)
    ensures Unique(Play(fees, events)) && |FeesOf(Play(fees, events), lead, course)| <= 1
  {
    hide Unique, SeedAll, FeesOf;
    if events != [] {
      var front, last := events[..|events| - 1], events[|events| - 1];
      assert last in events;
      OneFeePerCourse(fees, front, lead, course);
      if last.Seed? {
        PassFacts(Play(fees, front), last.wanted, last.fails);
      }
    }
    FeesOfFacts(Play(fees, events), lead, course);
  }

  lemma {:induction false} FeesOfExtends(fees: seq<Fee>, more: seq<Fee>, lead: Uuid, course: int)
    requires fees <= more
    ensures FeesOf(fees, lead, course) <= FeesOf(more, lead, course)
  {
    if |fees| < |more| {
      FeesOfExtends(fees, more[..|more| - 1], lead, course);
    } else {
      assert fees == more;
    }
  }

  /**
   * Once a course has its fee, no later pass adds another or touches it, whatever the course is called by then; the rest
   * of the table is never changed either.
   */
  lemma {:induction false} LaterPassesLeaveFee(fees: seq<Fee>, events: seq<Event>, lead: Uuid, course: int)
    requires Unique(fees) && forall e :: e in events ==> Admitted(e) && e.Seed?
    requires FeesOf(fees, lead, course) != []
    ensures FeesOf(Play(fees, events), lead, course) == FeesOf(fees, lead, course)
    ensures fees <= Play(fees, events)
  {
    hide Unique, SeedAll, FeesOf;
    if events != [] {
      var front, last := events[..|events| - 1], events[|events| - 1];
      assert last in events;
      LaterPassesLeaveFee(fees, front, lead, course);
      PassFacts(Play(fees, front), last.wanted, last.fails);
      OneFeePerCourse(fees, events, lead, course);
      FeesOfExtends(Play(fees, front), Play(fees, events), lead, course);
    }
  }
}
