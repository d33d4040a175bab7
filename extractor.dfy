/**
 * The statistics extractor (`getStats`): one statistics page of one
 * champion in one role, reduced to four fields by classifying the text of
 * every block container in document order.
 *
 * The page is given as what the document traversal yields: for each `div`
 * in document order, its own text and the text of its next sibling
 * element, both untrimmed (the empty string when there is no sibling).
 */
module Extractor {
  import opened Wrappers
  import opened Text
  import opened Tokens

  /** One `div`: its text and its next sibling's text. */
  datatype Container = Container(text: string, nextText: string)

  /** The outcome of fetching and parsing one page; `Failed` is any exception on the way. */
  datatype PageResult = Fetched(page: seq<Container>) | Failed

  /** The statistics site: the outcome of requesting the page at a URL. */
  type Upstream = string -> PageResult

  /**
   * The four scalar fields of one role. Percentages are in hundredths of a
   * percent; `None` is `null`, "not found on the page".
   */
  datatype RoleStats = RoleStats(tier: Option<string>, winRate: Option<nat>, pickRate: Option<nat>, banRate: Option<nat>)

  /** The record the extractor starts from, and returns when the page could not be had. */
  const AllNull := RoleStats(None, None, None, None)

  /** The page's address for a champion slug and a role's long code. */
  function StatsUrl(slug: string, rolePath: string): string {
    "https://u.gg/lol/champions/" + slug + "/build/" + rolePath
  }

  /** What a container is labelled with: its next sibling's text, trimmed and lowercased. */
  function Label(c: Container): string {
    Lower(Trim(c.nextText))
  }

  /**
   * One step of the traversal: the percentage test, whose label picks the
   * field by a fixed priority (win rate, then pick rate, then ban rate),
   * and then the tier test. Each assignment overwrites.
   */
  function Visit(s: RoleStats, c: Container): RoleStats {
    var text := Trim(c.text);
    TierVisit(PercentVisit(s, text, Label(c)), text, Label(c))
  }

  /** The percentage test of one container, with trimmed text `text` and label `l`. */
  function PercentVisit(s: RoleStats, text: string, l: string): RoleStats {
    if !IsPercentToken(text) then s
    else if Contains(l, "win rate") then s.(winRate := Some(PercentValue(text)))
    else if Contains(l, "pick rate") then s.(pickRate := Some(PercentValue(text)))
    else if Contains(l, "ban rate") then s.(banRate := Some(PercentValue(text)))
    else s
  }

  /** The tier test of one container, with trimmed text `text` and label `l`. */
  function TierVisit(s: RoleStats, text: string, l: string): RoleStats {
    if IsTierToken(text) && Contains(l, "tier") then s.(tier := Some(Upper(text))) else s
  }

  /** The record after visiting the containers of `page` in order, from all-null. */
  function Scan(page: seq<Container>): RoleStats
    decreases |page|
  {
    if page == [] then AllNull else Visit(Scan(page[..|page| - 1]), page[|page| - 1])
  }

  /** Scanning one more container visits it last. */
  lemma {:induction false} ScanStep(page: seq<Container>, i: nat)
    requires i < |page|
    ensures Scan(page[..i + 1]) == Visit(Scan(page[..i]), page[i])
  {
    assert page[..i + 1][..i] == page[..i];
  }

  /** The extractor's answer for one fetch: the scan of the page, or all-null when it failed. */
  function Extract(r: PageResult): RoleStats {
    match r
    case Fetched(page) => Scan(page)
    case Failed => AllNull
  }

  /** The callback that the traversal runs on each `div`: it updates the record in place. */
  method VisitDiv(s: RoleStats, c: Container) returns (stats: RoleStats)
    ensures stats == Visit(s, c)
  {
    stats := s;
    var text := Trim(c.text);
    if IsPercentToken(text) {
      var labelText := Label(c);
      var value := PercentValue(text);
      if Contains(labelText, "win rate") {
        stats := stats.(winRate := Some(value));
      } else if Contains(labelText, "pick rate") {
        stats := stats.(pickRate := Some(value));
      } else if Contains(labelText, "ban rate") {
        stats := stats.(banRate := Some(value));
      }
    }
    assert stats == PercentVisit(s, text, Label(c));
    if IsTierToken(text) {
      var nextText := Label(c);
      if Contains(nextText, "tier") {
        stats := stats.(tier := Some(Upper(text)));
      }
    }
  }

  /** `getStats(championSlug, rolePath)`. */
  method GetStats(slug: string, rolePath: string, upstream: Upstream) returns (stats: RoleStats)
    ensures stats == Extract(upstream(StatsUrl(slug, rolePath)))
    ensures upstream(StatsUrl(slug, rolePath)).Failed? ==> stats == AllNull
  {
    var response := upstream(StatsUrl(slug, rolePath));
    match response {
      case Failed =>
        stats := RoleStats(None, None, None, None);
      case Fetched(page) =>
        stats := RoleStats(None, None, None, None);
        var i := 0;
        while i < |page|
          invariant 0 <= i <= |page|
          invariant stats == Scan(page[..i])
        {
          stats := VisitDiv(stats, page[i]);
          ScanStep(page, i);
          i := i + 1;
        }
        assert page[..|page|] == page;
    }
  }

  // ---------------------------------------------------------------------
  // What one container writes, field by field
  // ---------------------------------------------------------------------

  function TierWrite(c: Container): Option<string> {
    var text := Trim(c.text);
    if IsTierToken(text) && Contains(Label(c), "tier") then Some(Upper(text)) else None
  }

  function WinWrite(c: Container): Option<nat> {
    var text := Trim(c.text);
    if IsPercentToken(text) && Contains(Label(c), "win rate") then Some(PercentValue(text)) else None
  }

  function PickWrite(c: Container): Option<nat> {
    var text := Trim(c.text);
    if IsPercentToken(text) && !Contains(Label(c), "win rate") && Contains(Label(c), "pick rate")
    then Some(PercentValue(text)) else None
  }

  function BanWrite(c: Container): Option<nat> {
    var text := Trim(c.text);
    if IsPercentToken(text) && !Contains(Label(c), "win rate") && !Contains(Label(c), "pick rate")
       && Contains(Label(c), "ban rate")
    then Some(PercentValue(text)) else None
  }

  /** A write replaces the old value; no write keeps it. */
  function Overwrite<T>(prev: Option<T>, w: Option<T>): Option<T> {
    if w.Some? then w else prev
  }

  /**
   * A container writes at most one field, and visiting it overwrites that
   * field alone. The percentage and tier patterns never both match.
   */
  lemma {:induction false} VisitWritesOneField(s: RoleStats, c: Container)
    ensures Visit(s, c) == RoleStats(Overwrite(s.tier, TierWrite(c)), Overwrite(s.winRate, WinWrite(c)),
                                     Overwrite(s.pickRate, PickWrite(c)), Overwrite(s.banRate, BanWrite(c)))
    ensures (if TierWrite(c).Some? then 1 else 0) + (if WinWrite(c).Some? then 1 else 0)
            + (if PickWrite(c).Some? then 1 else 0) + (if BanWrite(c).Some? then 1 else 0) <= 1
  {
    PercentIsNotTier(Trim(c.text));
  }

  /**
   * Label priority: a percentage is read as the win rate when its label
   * names the win rate, whatever else it names; as the pick rate only when
   * it does not name the win rate; as the ban rate only when it names
   * neither; and when its label names none of the three, nothing changes.
   */
  lemma {:induction false} PercentDispatch(s: RoleStats, c: Container)
    requires IsPercentToken(Trim(c.text))
    ensures Contains(Label(c), "win rate") ==> Visit(s, c) == s.(winRate := Some(PercentValue(Trim(c.text))))
    ensures !Contains(Label(c), "win rate") && Contains(Label(c), "pick rate") ==>
      Visit(s, c) == s.(pickRate := Some(PercentValue(Trim(c.text))))
    ensures !Contains(Label(c), "win rate") && !Contains(Label(c), "pick rate") && Contains(Label(c), "ban rate") ==>
      Visit(s, c) == s.(banRate := Some(PercentValue(Trim(c.text))))
    ensures !Contains(Label(c), "win rate") && !Contains(Label(c), "pick rate") && !Contains(Label(c), "ban rate") ==>
      Visit(s, c) == s
  {
    VisitWritesOneField(s, c);
    PercentIsNotTier(Trim(c.text));
  }

  /** The tier is written only by a tier token labelled "tier", as that token upper-cased; nothing else changes. */
  lemma {:induction false} TierDispatch(s: RoleStats, c: Container)
    requires !IsPercentToken(Trim(c.text))
    ensures IsTierToken(Trim(c.text)) && Contains(Label(c), "tier") ==>
      Visit(s, c) == s.(tier := Some(Upper(Trim(c.text))))
    ensures !(IsTierToken(Trim(c.text)) && Contains(Label(c), "tier")) ==> Visit(s, c) == s
  {
    VisitWritesOneField(s, c);
  }

  // ---------------------------------------------------------------------
  // Last write wins
  // ---------------------------------------------------------------------

  /** The last write of a sequence of writes, or `None` when there is none. */
  function LastWrite<T>(ws: seq<Option<T>>): Option<T>
    decreases |ws|
  {
    if ws == [] then None
    else if ws[|ws| - 1].Some? then ws[|ws| - 1]
    else LastWrite(ws[..|ws| - 1])
  }

  /** `LastWrite` is the value written at the last position that writes anything. */
  lemma {:induction false} LastWriteIsLast<T>(ws: seq<Option<T>>)
    ensures LastWrite(ws).None? <==> forall i :: 0 <= i < |ws| ==> ws[i].None?
    ensures LastWrite(ws).Some? ==>
      exists i :: 0 <= i < |ws| && ws[i] == LastWrite(ws) && forall j :: i < j < |ws| ==> ws[j].None?
    decreases |ws|
  {
    if ws != [] && ws[|ws| - 1].None? {
      var front := ws[..|ws| - 1];
      LastWriteIsLast(front);
      assert forall i :: 0 <= i < |front| ==> front[i] == ws[i];
    }
  }

  /** The writes of every container of a page to one field, in document order. */
  function Writes<T>(f: Container -> Option<T>, page: seq<Container>): (ws: seq<Option<T>>)
    ensures |ws| == |page|
  {
    seq(|page|, i requires 0 <= i < |page| => f(page[i]))
  }

  lemma {:induction false} WritesStep<T>(f: Container -> Option<T>, page: seq<Container>)
    requires page != []
    ensures LastWrite(Writes(f, page)) == Overwrite(LastWrite(Writes(f, page[..|page| - 1])), f(page[|page| - 1]))
  {
    var ws := Writes(f, page);
    assert ws[..|ws| - 1] == Writes(f, page[..|page| - 1]);
  }

  /**
   * Each field of a scanned page is the last write to that field in
   * document order: when several containers match the same statistic,
   * the last one wins, and a field nothing writes stays null.
   */
  lemma {:induction false} ScanIsLastWrite(page: seq<Container>)
    ensures Scan(page) == RoleStats(LastWrite(Writes(TierWrite, page)), LastWrite(Writes(WinWrite, page)),
                                    LastWrite(Writes(PickWrite, page)), LastWrite(Writes(BanWrite, page)))
    decreases |page|
  {
    if page != [] {
      var front := page[..|page| - 1];
      var c := page[|page| - 1];
      ScanIsLastWrite(front);
      VisitWritesOneField(Scan(front), c);
      WritesStep(TierWrite, page);
      WritesStep(WinWrite, page);
      WritesStep(PickWrite, page);
      WritesStep(BanWrite, page);
    }
  }

  /**
   * `r` is what the last container of `page` that writes through `f`
   * writes, and `None` exactly when no container writes.
   */
  ghost predicate IsLastMatch<T>(f: Container -> Option<T>, page: seq<Container>, r: Option<T>) {
    && (r.None? <==> forall i :: 0 <= i < |page| ==> f(page[i]).None?)
    && (r.Some? ==> exists i :: 0 <= i < |page| && f(page[i]) == r && forall j :: i < j < |page| ==> f(page[j]).None?)
  }

  lemma {:induction false} LastWriteOfWrites<T>(f: Container -> Option<T>, page: seq<Container>)
    ensures IsLastMatch(f, page, LastWrite(Writes(f, page)))
  {
    var ws := Writes(f, page);
    LastWriteIsLast(ws);
    assert forall i :: 0 <= i < |page| ==> ws[i] == f(page[i]);
  }

  /**
   * Last write wins, by position: every field of the result was written by
   * some container and by no container after it, and a field is null
   * exactly when no container of the page matches it.
   */
  lemma {:induction false} ScanLastMatch(page: seq<Container>)
    ensures IsLastMatch(TierWrite, page, Scan(page).tier)
    ensures IsLastMatch(WinWrite, page, Scan(page).winRate)
    ensures IsLastMatch(PickWrite, page, Scan(page).pickRate)
    ensures IsLastMatch(BanWrite, page, Scan(page).banRate)
  {
    ScanIsLastWrite(page);
    LastWriteOfWrites(TierWrite, page);
    LastWriteOfWrites(WinWrite, page);
    LastWriteOfWrites(PickWrite, page);
    LastWriteOfWrites(BanWrite, page);
  }

  /** Every found value lies in its domain: a grade, or a percentage of at most 99.99. */
  predicate InDomain(s: RoleStats) {
    && (s.tier.Some? ==> IsGrade(s.tier.value))
    && (s.winRate.Some? ==> s.winRate.value <= 9999)
    && (s.pickRate.Some? ==> s.pickRate.value <= 9999)
    && (s.banRate.Some? ==> s.banRate.value <= 9999)
  }

  /** Whatever the page, the extractor's answer is in the domain. */
  lemma {:induction false} ExtractInDomain(r: PageResult)
    ensures InDomain(Extract(r))
  {
    if r.Fetched? {
      ScanInDomain(r.page);
    }
  }

  /**
   * Fields start null and are never defaulted: a field of the answer is
   * null exactly when the fetch failed or no container of the page
   * matches that field.
   */
  lemma {:induction false} ExtractNullIffNoMatch(r: PageResult)
    ensures Extract(r).tier.None? <==> (r.Failed? || forall i :: 0 <= i < |r.page| ==> TierWrite(r.page[i]).None?)
    ensures Extract(r).winRate.None? <==> (r.Failed? || forall i :: 0 <= i < |r.page| ==> WinWrite(r.page[i]).None?)
    ensures Extract(r).pickRate.None? <==> (r.Failed? || forall i :: 0 <= i < |r.page| ==> PickWrite(r.page[i]).None?)
    ensures Extract(r).banRate.None? <==> (r.Failed? || forall i :: 0 <= i < |r.page| ==> BanWrite(r.page[i]).None?)
  {
    if r.Fetched? {
      ScanLastMatch(r.page);
    }
  }

  lemma {:induction false} ScanInDomain(page: seq<Container>)
    ensures InDomain(Scan(page))
    decreases |page|
  {
    if page != [] {
      var c := page[|page| - 1];
      ScanInDomain(page[..|page| - 1]);
      VisitWritesOneField(Scan(page[..|page| - 1]), c);
      if IsTierToken(Trim(c.text)) {
        TierTokenGrade(Trim(c.text));
      }
    }
  }
}
