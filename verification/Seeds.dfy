/** The seed table of NPC fighters, and the facts about it that runs rely on: every row starts in
    generation 1 under the first name of a non-empty pool of distinct names, with health and
    damage in range, and no two rows share a role. The rows are taken in small groups, since each
    involves many string comparisons. */
module Seeds {
  import opened World
  import opened Ledger

  const ROWS: nat := 21

  /** A row: name pool, role, base HP, damage range, shell bonus, reward. The first name is the
      current one, and exactly the pools of more than one name have successors. */
  function Row(pool: seq<string>, role: string, hp: int, lo: int, hi: int, bonus: int, reward: int): Npc
    requires pool != []
  {
    Npc(pool[0], role, 1, 0, hp, lo, hi, bonus, |pool| > 1, pool, reward)
  }

  function Callsign(row: nat): string {
    match row
    case 0 => "DSK"
    case 1 => "LUM"
    case 2 => "RIV"
    case 3 => "PAT"
    case 4 => "NIX"
    case 5 => "FER"
    case 6 => "CRU"
    case 7 => "KES"
    case 8 => "ARG"
    case 9 => "SAB"
    case 10 => "WREN"
    case 11 => "VLT"
    case 12 => "QSV"
    case 13 => "CPH"
    case 14 => "SPC"
    case 15 => "ZEN"
    case 16 => "OBS"
    case 17 => "APX"
    case 18 => "ECHO"
    case 19 => "THORN"
    case _ => "FLUX"
  }

  function RowAt(row: nat): Npc {
    match row
    case 0 => Row(["Dusk", "Shade", "Haze", "Murk", "Gloom", "Twilight"], "Suspect", 40, 8, 14, 12, 30)
    case 1 => Row(["Lumen", "Glint", "Prism", "Shard", "Flux", "Ember"], "Information Broker", 50, 10, 16, 14, 30)
    case 2 => Row(["Rivet", "Weld", "Forge", "Anvil", "Torque", "Gauge"], "Field Mechanic", 60, 10, 18, 16, 50)
    case 3 => Row(["Patch", "Splice", "Relay", "Bridge", "Conduit", "Link"], "Courier", 60, 12, 18, 16, 50)
    case 4 => Row(["Nix", "Cipher", "Vector", "Scalar", "Matrix", "Tensor"], "Signals Analyst", 70, 12, 20, 18, 50)
    case 5 =>
      Row(["Ferro", "Cobalt", "Titanium", "Chromium", "Vanadium", "Tungsten"], "Security Chief", 90, 14, 24, 22, 80)
    case 6 => Row(["Crucible", "Furnace", "Catalyst", "Reactor", "Nexus", "Cortex"], "Rogue AI", 100, 16, 26, 24, 80)
    case 7 =>
      Row(["Kestrel", "Falcon", "Osprey", "Harrier", "Merlin", "Peregrine"], "Station Chief", 100, 14, 24, 24, 80)
    case 8 => Row(["Argon", "Xenon", "Krypton", "Neon", "Helium", "Radon"], "Executive Director", 120, 18, 28, 28, 120)
    case 9 =>
      Row(["Sable", "Onyx", "Slate", "Obsidian", "Basalt", "Flint"], "Intelligence Handler", 130, 20, 30, 30, 120)
    case 10 => Row(["Wren"], "The Insider", 150, 22, 32, 35, 200)
    case 11 => Row(["Volt", "Amp", "Ohm", "Watt", "Tesla", "Farad"], "Power Grid Engineer", 140, 20, 30, 30, 150)
    case 12 =>
      Row(["Quicksilver", "Mercury", "Platinum", "Gallium", "Iridium", "Osmium"],
          "Network Architect", 160, 22, 32, 32, 180)
    case 13 =>
      Row(["Cipher", "Enigma", "Vigenere", "Playfair", "Atbash", "Vernam"], "Cryptanalyst", 160, 24, 34, 34, 180)
    case 14 =>
      Row(["Spectre", "Phantom", "Wraith", "Shade", "Ghost", "Revenant"], "Ghost Operative", 180, 26, 38, 38, 250)
    case 15 => Row(["Zenith"], "Surveillance AI", 200, 28, 40, 40, 300)
    case 16 => Row(["Obsidian"], "Reach Commander", 220, 32, 44, 42, 400)
    case 17 => Row(["APEX"], "Evolved Rogue AI", 280, 38, 50, 50, 500)
    case 18 =>
      Row(["Echo", "Reverb", "Ping", "Signal", "Resonance", "Harmonic"], "ZENITH Voice Interface", 110, 16, 26, 24, 120)
    case 19 => Row(["Thorn", "Barb", "Razor", "Spike", "Blade", "Edge"], "Reach Enforcer", 190, 28, 40, 36, 250)
    case _ =>
      Row(["Flux", "Glitch", "Static", "Noise", "Drift", "Surge"], "Black Market Data Fence", 130, 18, 28, 26, 180)
  }

  /** The table after its first rows have been inserted. */
  function Rows(n: nat): map<string, Npc> {
    if n == 0 then map[] else Rows(n - 1)[Callsign(n - 1) := RowAt(n - 1)]
  }

  function SeedTable(): map<string, Npc> {
    Rows(ROWS)
  }

  /** The row a role belongs to. */
  function RowOf(role: string): nat {
    match role
    case "Suspect" => 0
    case "Information Broker" => 1
    case "Field Mechanic" => 2
    case "Courier" => 3
    case "Signals Analyst" => 4
    case "Security Chief" => 5
    case "Rogue AI" => 6
    case "Station Chief" => 7
    case "Executive Director" => 8
    case "Intelligence Handler" => 9
    case "The Insider" => 10
    case "Power Grid Engineer" => 11
    case "Network Architect" => 12
    case "Cryptanalyst" => 13
    case "Ghost Operative" => 14
    case "Surveillance AI" => 15
    case "Reach Commander" => 16
    case "Evolved Rogue AI" => 17
    case "ZENITH Voice Interface" => 18
    case "Reach Enforcer" => 19
    case _ => 20
  }

  predicate GoodRow(row: nat) {
    var n := RowAt(row);
    && GoodSeed(n)
    && RowOf(n.role) == row
    && n.baseHp <= 280 && n.damageHi <= 50
    && |n.pool| == (if n.hasSuccessors then 6 else 1)
  }

  lemma RowsGood1(row: nat)
    requires 0 <= row < 6
    ensures GoodRow(row)
  {
  }

  lemma RowsGood2(row: nat)
    requires 6 <= row < 11
    ensures GoodRow(row)
  {
  }

  lemma RowsGood3(row: nat)
    requires 11 <= row < 16
    ensures GoodRow(row)
  {
  }

  lemma RowsGood4(row: nat)
    requires 16 <= row < 21
    ensures GoodRow(row)
  {
  }

  lemma NamesDiffer1(row: nat)
    requires 0 <= row < 3
    ensures DistinctNames(RowAt(row).pool)
  {
  }

  lemma NamesDiffer2(row: nat)
    requires 3 <= row < 6
    ensures DistinctNames(RowAt(row).pool)
  {
  }

  lemma NamesDiffer3(row: nat)
    requires 6 <= row < 10
    ensures DistinctNames(RowAt(row).pool)
  {
  }

  lemma NamesDiffer4(row: nat)
    requires 10 <= row < 13
    ensures DistinctNames(RowAt(row).pool)
  {
  }

  lemma NamesDiffer5(row: nat)
    requires 13 <= row < 17
    ensures DistinctNames(RowAt(row).pool)
  {
  }

  lemma NamesDiffer6(row: nat)
    requires 17 <= row < 21
    ensures DistinctNames(RowAt(row).pool)
  {
  }

  lemma RowGood(row: nat)
    requires row < ROWS
    ensures GoodRow(row) && DistinctNames(RowAt(row).pool)
  {
    hide RowAt, GoodRow, DistinctNames;
    if row < 6 {
      RowsGood1(row);
    } else if row < 11 {
      RowsGood2(row);
    } else if row < 16 {
      RowsGood3(row);
    } else {
      RowsGood4(row);
    }
    if row < 3 {
      NamesDiffer1(row);
    } else if row < 6 {
      NamesDiffer2(row);
    } else if row < 10 {
      NamesDiffer3(row);
    } else if row < 13 {
      NamesDiffer4(row);
    } else if row < 17 {
      NamesDiffer5(row);
    } else {
      NamesDiffer6(row);
    }
  }

  lemma {:induction false} FromSomeRow(n: nat, c: string)
    requires c in Rows(n)
    ensures exists row: nat :: row < n && Callsign(row) == c && Rows(n)[c] == RowAt(row)
  {
    hide Callsign, RowAt;
    if c != Callsign(n - 1) {
      FromSomeRow(n - 1, c);
    }
  }

  /** The table meets every promise that runs start from; in particular no two rows share a
      role. Its names are distinct within each pool. */
  lemma SeedTableGood()
    ensures GoodSeeds(SeedTable())
    ensures forall c | c in SeedTable() :: DistinctNames(SeedTable()[c].pool)
  {
    hide Callsign, RowAt, RowOf, Rows, GoodSeed, DistinctNames;
    forall c, d | c in SeedTable() && d in SeedTable()
      ensures GoodSeed(SeedTable()[c]) && DistinctNames(SeedTable()[c].pool)
      ensures c != d ==> SeedTable()[c].role != SeedTable()[d].role
    {
      FromSomeRow(ROWS, c);
      FromSomeRow(ROWS, d);
      var i: nat :| i < ROWS && Callsign(i) == c && Rows(ROWS)[c] == RowAt(i);
      var j: nat :| j < ROWS && Callsign(j) == d && Rows(ROWS)[d] == RowAt(j);
      RowGood(i);
      RowGood(j);
    }
  }

  /** So in the game as shipped, a role's holder has the documented name exactly in the first
      generation and from the length of its pool on. */
  lemma ShippedOrder(ws: seq<World>, es: seq<Event>, n: nat, callsign: string)
    requires IsRun(ws, es) && n <= |es| && ws[0].npcs == SeedTable() && callsign in ws[0].npcs
    ensures callsign in ws[n].npcs && ws[0].npcs[callsign].pool != [] && ws[n].npcs[callsign].generation >= 1
    ensures var pool, now := ws[0].npcs[callsign].pool, ws[n].npcs[callsign];
            now.name == pool[Min(now.generation - 1, |pool| - 1)]
            <==> now.generation == 1 || now.generation >= |pool|
  {
    hide Follows, GoodSeeds, SeedTable;
    SeedTableGood();
    SecondNameIsSkipped(ws, es, n, callsign);
  }
}
