/** The display tier of a badge (BRONZE, SILVER or GOLD), derived from its
    code when badges are read, never stored. */
module BadgeTiers {
  import opened Text

  /** The tier of a badge code: SILVER when it contains "10K" or "100_KM"
      (this test comes first), GOLD when it contains "MARATHON", "1000_KM" or
      "50_RUNS", BRONZE otherwise. */
  function Tier(code: string): (tier: string)
    ensures tier in {"BRONZE", "SILVER", "GOLD"}
  {
    if Contains(code, "10K") || Contains(code, "100_KM") then "SILVER"
    else if Contains(code, "MARATHON") || Contains(code, "1000_KM") || Contains(code, "50_RUNS") then "GOLD"
    else "BRONZE"
  }

  /** A code lacking one character of each SILVER pattern and one of each
      GOLD pattern is BRONZE. */
  lemma BronzeWhenLacking(code: string, c1: char, c2: char, c3: char, c4: char, c5: char)
    requires c1 in "10K" && c2 in "100_KM" && c3 in "MARATHON" && c4 in "1000_KM" && c5 in "50_RUNS"
    requires c1 !in code && c2 !in code && c3 !in code && c4 !in code && c5 !in code
    ensures Tier(code) == "BRONZE"
  {
    MissingChar(code, "10K", c1);
    MissingChar(code, "100_KM", c2);
    MissingChar(code, "MARATHON", c3);
    MissingChar(code, "1000_KM", c4);
    MissingChar(code, "50_RUNS", c5);
  }

  /** A code lacking one character of each SILVER pattern and containing a
      GOLD pattern is GOLD. */
  lemma GoldWhenLacking(code: string, c1: char, c2: char, gold: string)
    requires c1 in "10K" && c2 in "100_KM" && c1 !in code && c2 !in code
    requires gold in {"MARATHON", "1000_KM", "50_RUNS"} && Contains(code, gold)
    ensures Tier(code) == "GOLD"
  {
    MissingChar(code, "10K", c1);
    MissingChar(code, "100_KM", c2);
  }

  // The tier of every badge code the engine awards, one lemma per tier.

  /** FIRST_RUN, FIRST_5K, 10_RUNS and DIST_500_KM are BRONZE. */
  lemma BronzeCodes(code: string)
    requires code in {"FIRST_RUN", "FIRST_5K", "10_RUNS", "DIST_500_KM"}
    ensures Tier(code) == "BRONZE"
  {
    if code == "FIRST_RUN" {
      BronzeWhenLacking(code, '1', '1', 'M', '1', '5');
    } else if code == "FIRST_5K" {
      BronzeWhenLacking(code, '1', '1', 'M', '1', '0');
    } else if code == "10_RUNS" {
      BronzeWhenLacking(code, 'K', 'K', 'M', 'K', '5');
    } else {
      BronzeWhenLacking(code, '1', '1', 'A', '1', 'R');
    }
  }

  /** FIRST_10K and DIST_100_KM are SILVER. */
  lemma SilverCodes(code: string)
    requires code in {"FIRST_10K", "DIST_100_KM"}
    ensures Tier(code) == "SILVER"
  {
    if code == "FIRST_10K" {
      ContainsAt(code, "10K", 6);
    } else {
      ContainsAt(code, "100_KM", 5);
    }
  }

  /** HALF_MARATHON, 50_RUNS and DIST_1000_KM are GOLD. */
  lemma GoldCodes(code: string)
    requires code in {"HALF_MARATHON", "50_RUNS", "DIST_1000_KM"}
    ensures Tier(code) == "GOLD"
  {
    if code == "HALF_MARATHON" {
      ContainsAt(code, "MARATHON", 5);
      GoldWhenLacking(code, '1', '1', "MARATHON");
    } else if code == "50_RUNS" {
      ContainsAt(code, "50_RUNS", 0);
      GoldWhenLacking(code, '1', '1', "50_RUNS");
    } else {
      TierThousandKm();
    }
  }

  /** "10K" does not occur in "DIST_1000_KM". */
  lemma ThousandKmLacks10K() ensures !Contains("DIST_1000_KM", "10K") {
    var s := "DIST_1000_KM";
    forall k | 0 <= k <= |s| ensures !StartsWith(s[k..], "10K") {
      if k + 3 <= |s| { assert s[k..][..3][0] == s[k] && s[k..][..3][2] == s[k + 2]; }
    }
    NoOccurrence(s, "10K");
  }

  /** "100_KM" does not occur in "DIST_1000_KM" either. */
  lemma ThousandKmLacks100Km() ensures !Contains("DIST_1000_KM", "100_KM") {
    var s := "DIST_1000_KM";
    forall k | 0 <= k <= |s| ensures !StartsWith(s[k..], "100_KM") {
      if k + 6 <= |s| { assert s[k..][..6][0] == s[k] && s[k..][..6][3] == s[k + 3]; }
    }
    NoOccurrence(s, "100_KM");
  }

  /** DIST_1000_KM is GOLD: the SILVER test, which runs first, does not
      catch it. */
  lemma TierThousandKm() ensures Tier("DIST_1000_KM") == "GOLD" {
    ThousandKmLacks10K();
    ThousandKmLacks100Km();
    assert Contains("DIST_1000_KM", "1000_KM");
  }
}
