/**
 * The extractor on single containers taken from the behaviour the
 * scraper is meant to have: a percentage labelled "Win Rate", a `<`
 * percentage labelled "Ban Rate", a lower-case grade labelled "Tier",
 * and a percentage whose label names no statistic.
 */
module ExtractorExamples {
  import opened Wrappers
  import opened Text
  import opened Tokens
  import opened Extractor

  lemma {:induction false} ScanOne(c: Container)
    ensures Scan([c]) == Visit(AllNull, c)
  {
    assert [c][..0] == [];
  }

  lemma {:induction false} TrimPercent()
    ensures Trim("73%") == "73%"
  {
    assert !IsSpace('7') && !IsSpace('%');
    TrimUnchanged("73%");
  }

  lemma {:induction false} TrimLess()
    ensures Trim("<5%") == "<5%"
  {
    assert !IsSpace('<') && !IsSpace('%');
    TrimUnchanged("<5%");
  }

  lemma {:induction false} TrimGrade()
    ensures Trim("s-") == "s-"
  {
    assert !IsSpace('s') && !IsSpace('-');
    TrimUnchanged("s-");
  }

  lemma {:induction false} TrimWinLabel()
    ensures Trim("Win Rate") == "Win Rate"
  {
    assert !IsSpace('W') && !IsSpace('e');
    TrimUnchanged("Win Rate");
  }

  lemma {:induction false} LowerWinLabel()
    ensures Lower("Win Rate") == "win rate"
  {
  }

  lemma {:induction false} WinLabel()
    ensures Label(Container("73%", "Win Rate")) == "win rate"
  {
    TrimWinLabel();
    LowerWinLabel();
  }

  lemma {:induction false} TrimBanLabel()
    ensures Trim("Ban Rate") == "Ban Rate"
  {
    assert !IsSpace('B') && !IsSpace('e');
    TrimUnchanged("Ban Rate");
  }

  lemma {:induction false} LowerBanLabel()
    ensures Lower("Ban Rate") == "ban rate"
  {
  }

  lemma {:induction false} BanLabel()
    ensures Label(Container("<5%", "Ban Rate")) == "ban rate"
  {
    TrimBanLabel();
    LowerBanLabel();
  }

  lemma {:induction false} TrimTierLabel()
    ensures Trim("Tier") == "Tier"
  {
    assert !IsSpace('T') && !IsSpace('r');
    TrimUnchanged("Tier");
  }

  lemma {:induction false} LowerTierLabel()
    ensures Lower("Tier") == "tier"
  {
  }

  lemma {:induction false} TierLabel()
    ensures Label(Container("s-", "Tier")) == "tier"
  {
    TrimTierLabel();
    LowerTierLabel();
  }

  lemma {:induction false} TrimMatchesLabel()
    ensures Trim("Matches") == "Matches"
  {
    assert !IsSpace('M') && !IsSpace('s');
    TrimUnchanged("Matches");
  }

  lemma {:induction false} LowerMatchesLabel()
    ensures Lower("Matches") == "matches"
  {
  }

  lemma {:induction false} MatchesLabel()
    ensures Label(Container("73%", "Matches")) == "matches"
  {
    TrimMatchesLabel();
    LowerMatchesLabel();
  }

  lemma {:induction false} ContainsSelf(s: string)
    ensures Contains(s, s)
  {
    assert s[..|s|] == s;
  }

  lemma {:induction false} BanRateIsNoOtherLabel()
    ensures !Contains("ban rate", "win rate") && !Contains("ban rate", "pick rate")
  {
    assert "ban rate"[..8] != "win rate" by { assert "ban rate"[0] != "win rate"[0]; }
    ContainsNeedsRoom("ban rate"[1..], "win rate");
    ContainsNeedsRoom("ban rate", "pick rate");
  }

  lemma {:induction false} MatchesIsNoLabel()
    ensures !Contains("matches", "win rate") && !Contains("matches", "pick rate")
    ensures !Contains("matches", "ban rate") && !Contains("matches", "tier")
  {
    ContainsNeedsRoom("matches", "win rate");
    ContainsNeedsRoom("matches", "pick rate");
    ContainsNeedsRoom("matches", "ban rate");
    assert "matches"[..4] != "tier" by { assert "matches"[0] != "tier"[0]; }
    assert "atches"[..4] != "tier" by { assert "atches"[0] != "tier"[0]; }
    assert "tches"[..4] != "tier" by { assert "tches"[1] != "tier"[1]; }
    assert "ches"[..4] != "tier" by { assert "ches"[0] != "tier"[0]; }
    assert "matches"[1..] == "atches" && "atches"[1..] == "tches" && "tches"[1..] == "ches";
    ContainsNeedsRoom("ches"[1..], "tier");
  }

  /** "73%" labelled "Win Rate" gives a win rate of 73. */
  lemma {:induction false} WinRateExample()
    ensures Scan([Container("73%", "Win Rate")]) == AllNull.(winRate := Some(7300))
  {
    ScanOne(Container("73%", "Win Rate"));
    TrimPercent();
    WinLabel();
    ContainsSelf("win rate");
    PercentExample73();
    PercentIsNotTier("73%");
  }

  /** "<5%" labelled "Ban Rate" gives a ban rate of 5: the `<` is dropped. */
  lemma {:induction false} BanRateExample()
    ensures Scan([Container("<5%", "Ban Rate")]) == AllNull.(banRate := Some(500))
  {
    ScanOne(Container("<5%", "Ban Rate"));
    TrimLess();
    BanLabel();
    ContainsSelf("ban rate");
    BanRateIsNoOtherLabel();
    PercentExampleLess();
    PercentIsNotTier("<5%");
  }

  /** "s-" labelled "Tier" gives the grade "S-": upper-cased, suffix kept. */
  lemma {:induction false} TierExample()
    ensures Scan([Container("s-", "Tier")]) == AllNull.(tier := Some("S-"))
  {
    ScanOne(Container("s-", "Tier"));
    TrimGrade();
    TierLabel();
    ContainsSelf("tier");
    PercentIsNotTier("s-");
    assert IsTierToken("s-");
    assert Upper("s-") == "S-";
  }

  /** A percentage whose label names no statistic changes nothing. */
  lemma {:induction false} UnlabelledExample()
    ensures Scan([Container("73%", "Matches")]) == AllNull
  {
    ScanOne(Container("73%", "Matches"));
    TrimPercent();
    MatchesLabel();
    MatchesIsNoLabel();
    PercentExample73();
    PercentIsNotTier("73%");
  }
}
