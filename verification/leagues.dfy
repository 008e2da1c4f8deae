/**
 * Conversion of the official API's league list into the leagues the service
 * reports: economy leagues only, in their original order, with the hardcore
 * flag read from the league's rules; and the fallback used when the API
 * cannot be reached.
 */
module Leagues {
  import opened Common
  import opened Text
  import opened Models

  /** The cache key the league list is stored under. */
  const LeaguesCacheKey: string := "leagues"

  /** `is_economy_league`: solo self-found and Ruthless leagues have no market data. */
  predicate IsEconomyLeague(league: OfficialLeague) {
    if Contains(league.id, "SSF") || Contains(league.id, "Solo Self-Found") then false
    else if Contains(league.id, "Ruthless") then false
    else true
  }

  /** Some rule in `rules` has the id `Hardcore`. */
  function AnyHardcore(rules: seq<LeagueRule>): (r: bool)
    ensures r <==> exists i :: 0 <= i < |rules| && rules[i].id == "Hardcore"
  {
    if rules == [] then false
    else rules[0].id == "Hardcore" || AnyHardcore(rules[1..])
  }

  /** A league without rules is not hardcore. */
  function IsHardcore(league: OfficialLeague): bool {
    match league.rules
    case None => false
    case Some(rules) => AnyHardcore(rules)
  }

  /** The `League` an economy league is reported as. */
  function ToLeague(league: OfficialLeague): (r: League)
    ensures r.name == league.id && r.displayName == Some(league.id)
    ensures r.indexed
    ensures r.hardcore <==> league.rules.Some? && exists i :: 0 <= i < |league.rules.value|
                                                     && league.rules.value[i].id == "Hardcore"
  {
    League(league.id, Some(league.id), IsHardcore(league), true)
  }

  /** The filter-then-map in `get_leagues`. */
  function ConvertLeagues(official: seq<OfficialLeague>): (r: seq<League>)
    ensures |r| <= |official|
    ensures forall k :: 0 <= k < |r| ==> r[k].displayName == Some(r[k].name) && r[k].indexed
    ensures forall l :: l in r ==> exists o :: o in official && IsEconomyLeague(o) && l == ToLeague(o)
    ensures forall o :: o in official && IsEconomyLeague(o) ==> ToLeague(o) in r
  {
    if official == [] then []
    else
      var rest := ConvertLeagues(official[1..]);
      assert official == [official[0]] + official[1..];
      if IsEconomyLeague(official[0]) then [ToLeague(official[0])] + rest else rest
  }

  /** Converting a concatenation converts each part in turn: the output keeps the input's order. */
  lemma ConvertLeaguesCons(official: seq<OfficialLeague>)
    requires official != []
    ensures ConvertLeagues(official)
            == (if IsEconomyLeague(official[0]) then [ToLeague(official[0])] else []) + ConvertLeagues(official[1..])
  {
  }

  lemma {:induction false} ConvertLeaguesAppend(a: seq<OfficialLeague>, b: seq<OfficialLeague>)
    ensures ConvertLeagues(a + b) == ConvertLeagues(a) + ConvertLeagues(b)
  {
    if a != [] {
      assert (a + b)[1..] == a[1..] + b;
      assert (a + b)[0] == a[0];
      ConvertLeaguesCons(a + b);
      ConvertLeaguesCons(a);
      ConvertLeaguesAppend(a[1..], b);
    } else {
      assert a + b == b;
    }
  }

  /** Number of economy leagues in `official`. */
  function EconomyCount(official: seq<OfficialLeague>): nat {
    if official == [] then 0
    else (if IsEconomyLeague(official[0]) then 1 else 0) + EconomyCount(official[1..])
  }

  /** One league per economy league: the output is exactly as long as the economy subsequence. */
  lemma {:induction false} ConvertLeaguesLength(official: seq<OfficialLeague>)
    ensures |ConvertLeagues(official)| == EconomyCount(official)
  {
    if official != [] {
      ConvertLeaguesLength(official[1..]);
    }
  }

  /** Any league whose id contains an excluded marker is excluded, whatever else its id says. */
  lemma ExclusionSurvivesContext(id: string, marker: string, a: string, b: string, l: OfficialLeague)
    requires marker in {"SSF", "Solo Self-Found", "Ruthless"}
    requires Contains(id, marker) && l.id == a + id + b
    ensures !IsEconomyLeague(l)
  {
    var i: nat :| i <= |id| && OccursAt(id, marker, i);
    assert l.id[|a| + i..|a| + i + |marker|] == id[i..i + |marker|];
    assert OccursAt(l.id, marker, |a| + i);
  }

  /** An id containing none of the excluded markers is an economy league. */
  lemma EconomyWithoutMarkers(l: OfficialLeague)
    requires !Contains(l.id, "SSF") && !Contains(l.id, "Solo Self-Found") && !Contains(l.id, "Ruthless")
    ensures IsEconomyLeague(l)
  {
  }

  /** The permanent leagues as the official API lists them. */
  const PermanentLeagues: seq<OfficialLeague> := [
    OfficialLeague("Standard", None, None, None),
    OfficialLeague("Hardcore", None, None, Some([LeagueRule("Hardcore", Some("Hardcore"))]))
  ]

  /** `get_fallback_leagues`. */
  function FallbackLeagues(): (r: seq<League>)
    ensures |r| == 2
    ensures r[0].name == "Standard" && !r[0].hardcore
    ensures r[1].name == "Hardcore" && r[1].hardcore
    ensures forall k :: 0 <= k < |r| ==> r[k].indexed && r[k].displayName == Some(r[k].name)
  {
    [League("Standard", Some("Standard"), false, true),
     League("Hardcore", Some("Hardcore"), true, true)]
  }

  lemma StandardIsEconomy()
    ensures IsEconomyLeague(PermanentLeagues[0])
  {
    var id := "Standard";
    assert !Contains(id, "SSF") by {
      MissingCharNoOccurrence(id, "SSF", 2);
    }
    assert !Contains(id, "Solo Self-Found") by {
      MissingCharNoOccurrence(id, "Solo Self-Found", 1);
    }
    assert !Contains(id, "Ruthless") by {
      MissingCharNoOccurrence(id, "Ruthless", 0);
    }
    EconomyWithoutMarkers(PermanentLeagues[0]);
  }

  lemma HardcoreIsEconomy()
    ensures IsEconomyLeague(PermanentLeagues[1])
  {
    var id := "Hardcore";
    assert !Contains(id, "SSF") by {
      MissingCharNoOccurrence(id, "SSF", 0);
    }
    assert !Contains(id, "Solo Self-Found") by {
      MissingCharNoOccurrence(id, "Solo Self-Found", 0);
    }
    assert !Contains(id, "Ruthless") by {
      MissingCharNoOccurrence(id, "Ruthless", 0);
    }
    EconomyWithoutMarkers(PermanentLeagues[1]);
  }

  /** Neither permanent league is excluded. */
  lemma PermanentLeaguesAreEconomy()
    ensures IsEconomyLeague(PermanentLeagues[0]) && IsEconomyLeague(PermanentLeagues[1])
  {
    StandardIsEconomy();
    HardcoreIsEconomy();
  }

  /** The fallback is what converting the permanent leagues would report. */
  lemma FallbackIsPermanentConverted()
    ensures FallbackLeagues() == ConvertLeagues(PermanentLeagues)
  {
    var std := PermanentLeagues[0];
    var hc := PermanentLeagues[1];
    PermanentLeaguesAreEconomy();
    assert ConvertLeagues([hc]) == [ToLeague(hc)] by {
      assert [hc][1..] == [];
    }
    assert ConvertLeagues(PermanentLeagues) == [ToLeague(std)] + ConvertLeagues([hc]) by {
      assert PermanentLeagues[1..] == [hc];
    }
    assert IsHardcore(hc) by {
      assert hc.rules.value[0].id == "Hardcore";
    }
  }

  const Settlers: OfficialLeague := OfficialLeague("Settlers", None, None, Some([]))
  const HardcoreSettlers: OfficialLeague :=
    OfficialLeague("Hardcore Settlers", None, None, Some([LeagueRule("Hardcore", Some("Hardcore"))]))
  const SsfSettlers: OfficialLeague := OfficialLeague("SSF Settlers", None, None, None)
  const RuthlessSettlers: OfficialLeague := OfficialLeague("Ruthless Settlers", None, None, None)
  const SettlersListing: seq<OfficialLeague> := [Settlers, HardcoreSettlers, SsfSettlers, RuthlessSettlers]

  lemma ConvertSingle(l: OfficialLeague)
    ensures ConvertLeagues([l]) == if IsEconomyLeague(l) then [ToLeague(l)] else []
  {
    assert [l][1..] == [];
  }

  lemma SettlersIsTradeLeague()
    ensures IsEconomyLeague(Settlers) && !IsHardcore(Settlers)
  {
    var id := "Settlers";
    assert !Contains(id, "SSF") by {
      MissingCharNoOccurrence(id, "SSF", 2);
    }
    assert !Contains(id, "Solo Self-Found") by {
      MissingCharNoOccurrence(id, "Solo Self-Found", 1);
    }
    assert !Contains(id, "Ruthless") by {
      MissingCharNoOccurrence(id, "Ruthless", 0);
    }
    EconomyWithoutMarkers(Settlers);
  }

  lemma HardcoreSettlersLacksMarkers()
    ensures !Contains("Hardcore Settlers", "SSF")
    ensures !Contains("Hardcore Settlers", "Solo Self-Found")
    ensures !Contains("Hardcore Settlers", "Ruthless")
  {
    var id := "Hardcore Settlers";
    assert !Contains(id, "SSF") by {
      MissingCharNoOccurrence(id, "SSF", 2);
    }
    assert !Contains(id, "Solo Self-Found") by {
      MissingCharNoOccurrence(id, "Solo Self-Found", 8);
    }
    assert !Contains(id, "Ruthless") by {
      MissingCharNoOccurrence(id, "Ruthless", 0);
    }
  }

  lemma HardcoreSettlersIsTradeLeague()
    ensures IsEconomyLeague(HardcoreSettlers) && IsHardcore(HardcoreSettlers)
  {
    HardcoreSettlersLacksMarkers();
    EconomyWithoutMarkers(HardcoreSettlers);
    assert HardcoreSettlers.rules.value[0].id == "Hardcore";
  }

  lemma SettlersVariantsExcluded()
    ensures !IsEconomyLeague(SsfSettlers) && !IsEconomyLeague(RuthlessSettlers)
  {
    assert OccursAt("SSF", "SSF", 0);
    ExclusionSurvivesContext("SSF", "SSF", "", " Settlers", SsfSettlers);
    assert OccursAt("Ruthless", "Ruthless", 0);
    ExclusionSurvivesContext("Ruthless", "Ruthless", "", " Settlers", RuthlessSettlers);
  }

  /** The converted trade leagues of the listing. */
  const SettlersConverted: seq<League> :=
    [League("Settlers", Some("Settlers"), false, true),
     League("Hardcore Settlers", Some("Hardcore Settlers"), true, true)]

  lemma TradeLeaguesConverted()
    ensures ConvertLeagues([Settlers] + [HardcoreSettlers]) == SettlersConverted
  {
    SettlersIsTradeLeague();
    HardcoreSettlersIsTradeLeague();
    ConvertSingle(Settlers);
    ConvertSingle(HardcoreSettlers);
    ConvertLeaguesAppend([Settlers], [HardcoreSettlers]);
  }

  lemma SoloLeaguesDropped()
    ensures ConvertLeagues([SsfSettlers] + [RuthlessSettlers]) == []
  {
    SettlersVariantsExcluded();
    ConvertSingle(SsfSettlers);
    ConvertSingle(RuthlessSettlers);
    ConvertLeaguesAppend([SsfSettlers], [RuthlessSettlers]);
  }

  /**
   * A challenge-league listing: the two trade leagues survive in order, with
   * the hardcore flag read off the rules, and the SSF and Ruthless variants
   * are dropped.
   */
  lemma ChallengeLeagueExample()
    ensures ConvertLeagues(SettlersListing) == SettlersConverted
  {
    TradeLeaguesConverted();
    SoloLeaguesDropped();
    ConvertLeaguesAppend([Settlers] + [HardcoreSettlers], [SsfSettlers] + [RuthlessSettlers]);
    assert SettlersListing == ([Settlers] + [HardcoreSettlers]) + ([SsfSettlers] + [RuthlessSettlers]);
  }
}
