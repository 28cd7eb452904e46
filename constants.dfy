/** The fixed tables of internal/constants.py: map types, reaction emoji,
    page sizes, the alias groups of every map name and their display names,
    with the consistency facts the commands rely on. */
module Constants {
  import opened Text

  const TYPES_OF_MAP: seq<string> := [
    "SINGLE", "MULTILEVEL", "PIONEER", "TIME-ATTACK", "MEGAMAP", "MULTIMAP", "TUTORIAL", "HARDCORE", "MILDCORE", "OUT-OF-MAP", "ABLOCK", "NOSTALGIA", "FRAMEWORK"
  ]

  /** Reaction emoji: confirm, cancel, page left, page right, verified, rejected. */
  const CONFIRM_REACTION_EMOJI: string := "\U{1F7E2}"
  const CANCEL_REACTION_EMOJI: string := "\U{1F7E5}"
  const LEFT_REACTION_EMOJI: string := "\U{25C0}"
  const RIGHT_REACTION_EMOJI: string := "\U{25B6}"
  const VERIFIED_EMOJI: string := "\U{2705}"
  const NOT_VERIFIED_EMOJI: string := "\U{274C}"

  /** Rows per PrettyTable page. */
  const PT_PAGE_SIZE: nat := 10
  /** Number of maps listed by the newest-maps command. */
  const NEWEST_MAPS_LIMIT: nat := 10

  const AYUTTHAYA: seq<string> := ["ayutthaya", "ayutt"]
  const BLACKFOREST: seq<string> := ["blackforest", "bf"]
  const BLIZZARDWORLD: seq<string> := ["blizzardworld", "bw", "blizz", "blizzworld", "blizzard"]
  const BUSAN: seq<string> := ["busan"]
  const CASTILLO: seq<string> := ["castillo"]
  const CHATEAUGUILLARD: seq<string> := ["chateauguillard", "chateau", "guillard"]
  const DORADO: seq<string> := ["dorado"]
  const EICHENWALDE: seq<string> := ["eichenwalde", "eich", "eichen", "eichenwald"]
  const HANAMURA: seq<string> := ["hanamura", "hana"]
  const HAVANA: seq<string> := ["havana"]
  const HOLLYWOOD: seq<string> := ["hollywood", "holly"]
  const HORIZONLUNARCOLONY: seq<string> := ["horizonlunarcolony", "hlc", "horizon"]
  const ILIOS: seq<string> := ["ilios"]
  const JUNKERTOWN: seq<string> := ["junkertown"]
  const LIJIANGTOWER: seq<string> := ["lijiangtower", "lijiang"]
  const NECROPOLIS: seq<string> := ["necropolis"]
  const NEPAL: seq<string> := ["nepal"]
  const NUMBANI: seq<string> := ["numbani"]
  const OASIS: seq<string> := ["oasis"]
  const PARIS: seq<string> := ["paris"]
  const RIALTO: seq<string> := ["rialto"]
  const ROUTE66: seq<string> := ["route66", "r66"]
  const TEMPLEOFANUBIS: seq<string> := ["templeofanubis", "anubis"]
  const VOLSKAYAINDUSTRIES: seq<string> := ["volskayaindustries", "volskaya"]
  const WATCHPOINTGIBRALTAR: seq<string> := ["watchpointgibraltar", "gibraltar", "wpg"]
  const KINGSROW: seq<string> := ["kingsrow", "kr"]
  const PETRA: seq<string> := ["petra"]
  const ECOPOINTANTARCTICA: seq<string> := ["ecopointantarctica", "ecopoint", "antarctica"]
  const KANEZAKA: seq<string> := ["kanezaka", "kz", "kane", "zaka"]
  const WORKSHOPCHAMBER: seq<string> := ["workshopchamber", "chamber"]
  const WORKSHOPEXPANSE: seq<string> := ["workshopexpanse", "expanse"]
  const WORKSHOPGREENSCREEN: seq<string> := ["workshopgreenscreen", "green", "greenscreen"]
  const WORKSHOPISLAND: seq<string> := ["workshopisland", "island"]
  const PRACTICERANGE: seq<string> := ["practicerange", "practice", "pr"]
  const FRAMEWORK: seq<string> := ["framework", "fw"]

  /** The alias groups; the first alias of each group is the canonical name. */
  const ALL_MAP_NAMES: seq<seq<string>> := [
    AYUTTHAYA, BLACKFOREST, BLIZZARDWORLD, BUSAN, CASTILLO,
    CHATEAUGUILLARD, DORADO, ECOPOINTANTARCTICA, EICHENWALDE, HANAMURA,
    HAVANA, HOLLYWOOD, HORIZONLUNARCOLONY, ILIOS, JUNKERTOWN,
    KANEZAKA, KINGSROW, LIJIANGTOWER, NECROPOLIS, NEPAL,
    NUMBANI, OASIS, PARIS, PETRA, PRACTICERANGE,
    RIALTO, ROUTE66, TEMPLEOFANUBIS, VOLSKAYAINDUSTRIES, WATCHPOINTGIBRALTAR,
    WORKSHOPCHAMBER, WORKSHOPEXPANSE, WORKSHOPGREENSCREEN, WORKSHOPISLAND, FRAMEWORK
  ]

  /** Display name of each canonical map name. */
  const PRETTY_NAMES: map<string, string> := map[
    "ayutthaya" := "Ayutthaya",
    "blackforest" := "Black Forest",
    "blizzardworld" := "Blizzard World",
    "busan" := "Busan",
    "castillo" := "Castillo",
    "chateauguillard" := "Chateau Guillard",
    "dorado" := "Dorado",
    "eichenwalde" := "Eichenwalde",
    "hanamura" := "Hanamura",
    "havana" := "Havana",
    "hollywood" := "Hollywood",
    "horizonlunarcolony" := "Horizon Lunar Colony",
    "ilios" := "Ilios",
    "junkertown" := "Junkertown",
    "lijiangtower" := "Lijiang Tower",
    "necropolis" := "Necropolis",
    "nepal" := "Nepal",
    "numbani" := "Numbani",
    "oasis" := "Oasis",
    "paris" := "Paris",
    "rialto" := "Rialto",
    "route66" := "Route 66",
    "templeofanubis" := "Temple of Anubis",
    "volskayaindustries" := "Volskaya Industries",
    "watchpointgibraltar" := "Watchpoint Gibraltar",
    "kingsrow" := "King's Row",
    "petra" := "Petra",
    "ecopointantarctica" := "Ecopoint Antarctica",
    "kanezaka" := "Kanezaka",
    "workshopchamber" := "Workshop Chamber",
    "workshopexpanse" := "Workshop Expanse",
    "workshopgreenscreen" := "Workshop Greenscreen",
    "workshopisland" := "Workshop Island",
    "practicerange" := "Practice Range",
    "framework" := "Framework"
  ]

  /** Every alias group is non-empty and its canonical name has a display name. */
  lemma CanonicalNamesArePretty()
    ensures forall i :: 0 <= i < |ALL_MAP_NAMES| ==>
      |ALL_MAP_NAMES[i]| >= 1 && ALL_MAP_NAMES[i][0] in PRETTY_NAMES
  {
  }

  /** Every alias is a lower-case string of ASCII letters and digits. */
  lemma AliasesAreLowerAlnum()
    ensures forall i, j :: 0 <= i < |ALL_MAP_NAMES| && 0 <= j < |ALL_MAP_NAMES[i]| ==>
      IsLowerCased(ALL_MAP_NAMES[i][j]) && AllAsciiAlnum(ALL_MAP_NAMES[i][j])
  {
    AyutthayaAliases();
    BlackforestAliases();
    BlizzardworldAliases();
    BusanAliases();
    CastilloAliases();
    ChateauguillardAliases();
    DoradoAliases();
    EcopointantarcticaAliases();
    EichenwaldeAliases();
    HanamuraAliases();
    HavanaAliases();
    HollywoodAliases();
    HorizonlunarcolonyAliases();
    IliosAliases();
    JunkertownAliases();
    KanezakaAliases();
    KingsrowAliases();
    LijiangtowerAliases();
    NecropolisAliases();
    NepalAliases();
    NumbaniAliases();
    OasisAliases();
    ParisAliases();
    PetraAliases();
    PracticerangeAliases();
    RialtoAliases();
    Route66Aliases();
    TempleofanubisAliases();
    VolskayaindustriesAliases();
    WatchpointgibraltarAliases();
    WorkshopchamberAliases();
    WorkshopexpanseAliases();
    WorkshopgreenscreenAliases();
    WorkshopislandAliases();
    FrameworkAliases();
  }

  /** No alias belongs to two groups. */
  lemma AliasesDistinct()
    ensures forall i, j, k ::
      0 <= i < |ALL_MAP_NAMES| && 0 <= j < |ALL_MAP_NAMES[i]| && 0 <= k < |ALL_MAP_NAMES| && k != i
      ==> ALL_MAP_NAMES[i][j] !in ALL_MAP_NAMES[k]
  {
    FirstGroupsApart();
    MiddleGroupsApart();
    LastGroupsApart();
  }

  /** AliasesDistinct for the groups before index 18. */
  lemma FirstGroupsApart()
    ensures forall i, j, k ::
      0 <= i < |ALL_MAP_NAMES| && i < 18 && 0 <= j < |ALL_MAP_NAMES[i]| && 0 <= k < |ALL_MAP_NAMES| && k != i
      ==> ALL_MAP_NAMES[i][j] !in ALL_MAP_NAMES[k]
  {
    AyutthayaApart();
    BlackforestApart();
    BlizzardworldApart();
    BusanApart();
    CastilloApart();
    ChateauguillardApart();
    DoradoApart();
    EcopointantarcticaApart();
    EichenwaldeApart();
    HanamuraApart();
    HavanaApart();
    HollywoodApart();
    HorizonlunarcolonyApart();
    IliosApart();
    JunkertownApart();
    KanezakaApart();
    KingsrowApart();
    LijiangtowerApart();
  }

  /** AliasesDistinct for the groups from index 18 to 26. */
  lemma MiddleGroupsApart()
    ensures forall i, j, k ::
      0 <= i < |ALL_MAP_NAMES| && 18 <= i < 27 && 0 <= j < |ALL_MAP_NAMES[i]| && 0 <= k < |ALL_MAP_NAMES| && k != i
      ==> ALL_MAP_NAMES[i][j] !in ALL_MAP_NAMES[k]
  {
    NecropolisApart();
    NepalApart();
    NumbaniApart();
    OasisApart();
    ParisApart();
    PetraApart();
    PracticerangeApart();
    RialtoApart();
    Route66Apart();
  }

  /** AliasesDistinct for the groups from index 27 on. */
  lemma LastGroupsApart()
    ensures forall i, j, k ::
      0 <= i < |ALL_MAP_NAMES| && 27 <= i && 0 <= j < |ALL_MAP_NAMES[i]| && 0 <= k < |ALL_MAP_NAMES| && k != i
      ==> ALL_MAP_NAMES[i][j] !in ALL_MAP_NAMES[k]
  {
    TempleofanubisApart();
    VolskayaindustriesApart();
    WatchpointgibraltarApart();
    WorkshopchamberApart();
    WorkshopexpanseApart();
    WorkshopgreenscreenApart();
    WorkshopislandApart();
    FrameworkApart();
  }

  /** The facts above for one group: its aliases are lower-case ASCII
      letters and digits, and they occur in no other group. */
  lemma AyutthayaAliases()
    ensures forall j :: 0 <= j < |AYUTTHAYA| ==> IsLowerCased(AYUTTHAYA[j]) && AllAsciiAlnum(AYUTTHAYA[j])
  {
  }

  lemma AyutthayaApart()
    ensures forall j, k :: 0 <= j < |AYUTTHAYA| && 0 <= k < |ALL_MAP_NAMES| && k != 0 ==>
      AYUTTHAYA[j] !in ALL_MAP_NAMES[k]
  {
  }

  lemma BlackforestAliases()
    ensures forall j :: 0 <= j < |BLACKFOREST| ==> IsLowerCased(BLACKFOREST[j]) && AllAsciiAlnum(BLACKFOREST[j])
  {
  }

  lemma BlackforestApart()
    ensures forall j, k :: 0 <= j < |BLACKFOREST| && 0 <= k < |ALL_MAP_NAMES| && k != 1 ==>
      BLACKFOREST[j] !in ALL_MAP_NAMES[k]
  {
  }

  lemma BlizzardworldAliases()
    ensures forall j :: 0 <= j < |BLIZZARDWORLD| ==> IsLowerCased(BLIZZARDWORLD[j]) && AllAsciiAlnum(BLIZZARDWORLD[j])
  {
  }

  lemma BlizzardworldApart()
    ensures forall j, k :: 0 <= j < |BLIZZARDWORLD| && 0 <= k < |ALL_MAP_NAMES| && k != 2 ==>
      BLIZZARDWORLD[j] !in ALL_MAP_NAMES[k]
  {
  }

  lemma BusanAliases()
    ensures forall j :: 0 <= j < |BUSAN| ==> IsLowerCased(BUSAN[j]) && AllAsciiAlnum(BUSAN[j])
  {
  }

  lemma BusanApart()
    ensures forall j, k :: 0 <= j < |BUSAN| && 0 <= k < |ALL_MAP_NAMES| && k != 3 ==>
      BUSAN[j] !in ALL_MAP_NAMES[k]
  {
  }

  lemma CastilloAliases()
    ensures forall j :: 0 <= j < |CASTILLO| ==> IsLowerCased(CASTILLO[j]) && AllAsciiAlnum(CASTILLO[j])
  {
  }

  lemma CastilloApart()
    ensures forall j, k :: 0 <= j < |CASTILLO| && 0 <= k < |ALL_MAP_NAMES| && k != 4 ==>
      CASTILLO[j] !in ALL_MAP_NAMES[k]
  {
  }

  lemma ChateauguillardAliases()
    ensures forall j :: 0 <= j < |CHATEAUGUILLARD| ==> IsLowerCased(CHATEAUGUILLARD[j]) && AllAsciiAlnum(CHATEAUGUILLARD[j])
  {
  }

  lemma ChateauguillardApart()
    ensures forall j, k :: 0 <= j < |CHATEAUGUILLARD| && 0 <= k < |ALL_MAP_NAMES| && k != 5 ==>
      CHATEAUGUILLARD[j] !in ALL_MAP_NAMES[k]
  {
  }

  lemma DoradoAliases()
    ensures forall j :: 0 <= j < |DORADO| ==> IsLowerCased(DORADO[j]) && AllAsciiAlnum(DORADO[j])
  {
  }

  lemma DoradoApart()
    ensures forall j, k :: 0 <= j < |DORADO| && 0 <= k < |ALL_MAP_NAMES| && k != 6 ==>
      DORADO[j] !in ALL_MAP_NAMES[k]
  {
  }

  lemma EcopointantarcticaAliases()
    ensures forall j :: 0 <= j < |ECOPOINTANTARCTICA| ==> IsLowerCased(ECOPOINTANTARCTICA[j]) && AllAsciiAlnum(ECOPOINTANTARCTICA[j])
  {
  }

  lemma EcopointantarcticaApart()
    ensures forall j, k :: 0 <= j < |ECOPOINTANTARCTICA| && 0 <= k < |ALL_MAP_NAMES| && k != 7 ==>
      ECOPOINTANTARCTICA[j] !in ALL_MAP_NAMES[k]
  {
  }

  lemma EichenwaldeAliases()
    ensures forall j :: 0 <= j < |EICHENWALDE| ==> IsLowerCased(EICHENWALDE[j]) && AllAsciiAlnum(EICHENWALDE[j])
  {
  }

  lemma EichenwaldeApart()
    ensures forall j, k :: 0 <= j < |EICHENWALDE| && 0 <= k < |ALL_MAP_NAMES| && k != 8 ==>
      EICHENWALDE[j] !in ALL_MAP_NAMES[k]
  {
  }

  lemma HanamuraAliases()
    ensures forall j :: 0 <= j < |HANAMURA| ==> IsLowerCased(HANAMURA[j]) && AllAsciiAlnum(HANAMURA[j])
  {
  }

  lemma HanamuraApart()
    ensures forall j, k :: 0 <= j < |HANAMURA| && 0 <= k < |ALL_MAP_NAMES| && k != 9 ==>
      HANAMURA[j] !in ALL_MAP_NAMES[k]
  {
  }

  lemma HavanaAliases()
    ensures forall j :: 0 <= j < |HAVANA| ==> IsLowerCased(HAVANA[j]) && AllAsciiAlnum(HAVANA[j])
  {
  }

  lemma HavanaApart()
    ensures forall j, k :: 0 <= j < |HAVANA| && 0 <= k < |ALL_MAP_NAMES| && k != 10 ==>
      HAVANA[j] !in ALL_MAP_NAMES[k]
  {
  }

  lemma HollywoodAliases()
    ensures forall j :: 0 <= j < |HOLLYWOOD| ==> IsLowerCased(HOLLYWOOD[j]) && AllAsciiAlnum(HOLLYWOOD[j])
  {
  }

  lemma HollywoodApart()
    ensures forall j, k :: 0 <= j < |HOLLYWOOD| && 0 <= k < |ALL_MAP_NAMES| && k != 11 ==>
      HOLLYWOOD[j] !in ALL_MAP_NAMES[k]
  {
  }

  lemma HorizonlunarcolonyAliases()
    ensures forall j :: 0 <= j < |HORIZONLUNARCOLONY| ==> IsLowerCased(HORIZONLUNARCOLONY[j]) && AllAsciiAlnum(HORIZONLUNARCOLONY[j])
  {
  }

  lemma HorizonlunarcolonyApart()
    ensures forall j, k :: 0 <= j < |HORIZONLUNARCOLONY| && 0 <= k < |ALL_MAP_NAMES| && k != 12 ==>
      HORIZONLUNARCOLONY[j] !in ALL_MAP_NAMES[k]
  {
  }

  lemma IliosAliases()
    ensures forall j :: 0 <= j < |ILIOS| ==> IsLowerCased(ILIOS[j]) && AllAsciiAlnum(ILIOS[j])
  {
  }

  lemma IliosApart()
    ensures forall j, k :: 0 <= j < |ILIOS| && 0 <= k < |ALL_MAP_NAMES| && k != 13 ==>
      ILIOS[j] !in ALL_MAP_NAMES[k]
  {
  }

  lemma JunkertownAliases()
    ensures forall j :: 0 <= j < |JUNKERTOWN| ==> IsLowerCased(JUNKERTOWN[j]) && AllAsciiAlnum(JUNKERTOWN[j])
  {
  }

  lemma JunkertownApart()
    ensures forall j, k :: 0 <= j < |JUNKERTOWN| && 0 <= k < |ALL_MAP_NAMES| && k != 14 ==>
      JUNKERTOWN[j] !in ALL_MAP_NAMES[k]
  {
  }

  lemma KanezakaAliases()
    ensures forall j :: 0 <= j < |KANEZAKA| ==> IsLowerCased(KANEZAKA[j]) && AllAsciiAlnum(KANEZAKA[j])
  {
  }

  lemma KanezakaApart()
    ensures forall j, k :: 0 <= j < |KANEZAKA| && 0 <= k < |ALL_MAP_NAMES| && k != 15 ==>
      KANEZAKA[j] !in ALL_MAP_NAMES[k]
  {
  }

  lemma KingsrowAliases()
    ensures forall j :: 0 <= j < |KINGSROW| ==> IsLowerCased(KINGSROW[j]) && AllAsciiAlnum(KINGSROW[j])
  {
  }

  lemma KingsrowApart()
    ensures forall j, k :: 0 <= j < |KINGSROW| && 0 <= k < |ALL_MAP_NAMES| && k != 16 ==>
      KINGSROW[j] !in ALL_MAP_NAMES[k]
  {
  }

  lemma LijiangtowerAliases()
    ensures forall j :: 0 <= j < |LIJIANGTOWER| ==> IsLowerCased(LIJIANGTOWER[j]) && AllAsciiAlnum(LIJIANGTOWER[j])
  {
  }

  lemma LijiangtowerApart()
    ensures forall j, k :: 0 <= j < |LIJIANGTOWER| && 0 <= k < |ALL_MAP_NAMES| && k != 17 ==>
      LIJIANGTOWER[j] !in ALL_MAP_NAMES[k]
  {
  }

  lemma NecropolisAliases()
    ensures forall j :: 0 <= j < |NECROPOLIS| ==> IsLowerCased(NECROPOLIS[j]) && AllAsciiAlnum(NECROPOLIS[j])
  {
  }

  lemma NecropolisApart()
    ensures forall j, k :: 0 <= j < |NECROPOLIS| && 0 <= k < |ALL_MAP_NAMES| && k != 18 ==>
      NECROPOLIS[j] !in ALL_MAP_NAMES[k]
  {
  }

  lemma NepalAliases()
    ensures forall j :: 0 <= j < |NEPAL| ==> IsLowerCased(NEPAL[j]) && AllAsciiAlnum(NEPAL[j])
  {
  }

  lemma NepalApart()
    ensures forall j, k :: 0 <= j < |NEPAL| && 0 <= k < |ALL_MAP_NAMES| && k != 19 ==>
      NEPAL[j] !in ALL_MAP_NAMES[k]
  {
  }

  lemma NumbaniAliases()
    ensures forall j :: 0 <= j < |NUMBANI| ==> IsLowerCased(NUMBANI[j]) && AllAsciiAlnum(NUMBANI[j])
  {
  }

  lemma NumbaniApart()
    ensures forall j, k :: 0 <= j < |NUMBANI| && 0 <= k < |ALL_MAP_NAMES| && k != 20 ==>
      NUMBANI[j] !in ALL_MAP_NAMES[k]
  {
  }

  lemma OasisAliases()
    ensures forall j :: 0 <= j < |OASIS| ==> IsLowerCased(OASIS[j]) && AllAsciiAlnum(OASIS[j])
  {
  }

  lemma OasisApart()
    ensures forall j, k :: 0 <= j < |OASIS| && 0 <= k < |ALL_MAP_NAMES| && k != 21 ==>
      OASIS[j] !in ALL_MAP_NAMES[k]
  {
  }

  lemma ParisAliases()
    ensures forall j :: 0 <= j < |PARIS| ==> IsLowerCased(PARIS[j]) && AllAsciiAlnum(PARIS[j])
  {
  }

  lemma ParisApart()
    ensures forall j, k :: 0 <= j < |PARIS| && 0 <= k < |ALL_MAP_NAMES| && k != 22 ==>
      PARIS[j] !in ALL_MAP_NAMES[k]
  {
  }

  lemma PetraAliases()
    ensures forall j :: 0 <= j < |PETRA| ==> IsLowerCased(PETRA[j]) && AllAsciiAlnum(PETRA[j])
  {
  }

  lemma PetraApart()
    ensures forall j, k :: 0 <= j < |PETRA| && 0 <= k < |ALL_MAP_NAMES| && k != 23 ==>
      PETRA[j] !in ALL_MAP_NAMES[k]
  {
  }

  lemma PracticerangeAliases()
    ensures forall j :: 0 <= j < |PRACTICERANGE| ==> IsLowerCased(PRACTICERANGE[j]) && AllAsciiAlnum(PRACTICERANGE[j])
  {
  }

  lemma PracticerangeApart()
    ensures forall j, k :: 0 <= j < |PRACTICERANGE| && 0 <= k < |ALL_MAP_NAMES| && k != 24 ==>
      PRACTICERANGE[j] !in ALL_MAP_NAMES[k]
  {
  }

  lemma RialtoAliases()
    ensures forall j :: 0 <= j < |RIALTO| ==> IsLowerCased(RIALTO[j]) && AllAsciiAlnum(RIALTO[j])
  {
  }

  lemma RialtoApart()
    ensures forall j, k :: 0 <= j < |RIALTO| && 0 <= k < |ALL_MAP_NAMES| && k != 25 ==>
      RIALTO[j] !in ALL_MAP_NAMES[k]
  {
  }

  lemma Route66Aliases()
    ensures forall j :: 0 <= j < |ROUTE66| ==> IsLowerCased(ROUTE66[j]) && AllAsciiAlnum(ROUTE66[j])
  {
  }

  lemma Route66Apart()
    ensures forall j, k :: 0 <= j < |ROUTE66| && 0 <= k < |ALL_MAP_NAMES| && k != 26 ==>
      ROUTE66[j] !in ALL_MAP_NAMES[k]
  {
  }

  lemma TempleofanubisAliases()
    ensures forall j :: 0 <= j < |TEMPLEOFANUBIS| ==> IsLowerCased(TEMPLEOFANUBIS[j]) && AllAsciiAlnum(TEMPLEOFANUBIS[j])
  {
  }

  lemma TempleofanubisApart()
    ensures forall j, k :: 0 <= j < |TEMPLEOFANUBIS| && 0 <= k < |ALL_MAP_NAMES| && k != 27 ==>
      TEMPLEOFANUBIS[j] !in ALL_MAP_NAMES[k]
  {
  }

  lemma VolskayaindustriesAliases()
    ensures forall j :: 0 <= j < |VOLSKAYAINDUSTRIES| ==> IsLowerCased(VOLSKAYAINDUSTRIES[j]) && AllAsciiAlnum(VOLSKAYAINDUSTRIES[j])
  {
  }

  lemma VolskayaindustriesApart()
    ensures forall j, k :: 0 <= j < |VOLSKAYAINDUSTRIES| && 0 <= k < |ALL_MAP_NAMES| && k != 28 ==>
      VOLSKAYAINDUSTRIES[j] !in ALL_MAP_NAMES[k]
  {
  }

  lemma WatchpointgibraltarAliases()
    ensures forall j :: 0 <= j < |WATCHPOINTGIBRALTAR| ==> IsLowerCased(WATCHPOINTGIBRALTAR[j]) && AllAsciiAlnum(WATCHPOINTGIBRALTAR[j])
  {
  }

  lemma WatchpointgibraltarApart()
    ensures forall j, k :: 0 <= j < |WATCHPOINTGIBRALTAR| && 0 <= k < |ALL_MAP_NAMES| && k != 29 ==>
      WATCHPOINTGIBRALTAR[j] !in ALL_MAP_NAMES[k]
  {
  }

  lemma WorkshopchamberAliases()
    ensures forall j :: 0 <= j < |WORKSHOPCHAMBER| ==> IsLowerCased(WORKSHOPCHAMBER[j]) && AllAsciiAlnum(WORKSHOPCHAMBER[j])
  {
  }

  lemma WorkshopchamberApart()
    ensures forall j, k :: 0 <= j < |WORKSHOPCHAMBER| && 0 <= k < |ALL_MAP_NAMES| && k != 30 ==>
      WORKSHOPCHAMBER[j] !in ALL_MAP_NAMES[k]
  {
  }

  lemma WorkshopexpanseAliases()
    ensures forall j :: 0 <= j < |WORKSHOPEXPANSE| ==> IsLowerCased(WORKSHOPEXPANSE[j]) && AllAsciiAlnum(WORKSHOPEXPANSE[j])
  {
  }

  lemma WorkshopexpanseApart()
    ensures forall j, k :: 0 <= j < |WORKSHOPEXPANSE| && 0 <= k < |ALL_MAP_NAMES| && k != 31 ==>
      WORKSHOPEXPANSE[j] !in ALL_MAP_NAMES[k]
  {
  }

  lemma WorkshopgreenscreenAliases()
    ensures forall j :: 0 <= j < |WORKSHOPGREENSCREEN| ==> IsLowerCased(WORKSHOPGREENSCREEN[j]) && AllAsciiAlnum(WORKSHOPGREENSCREEN[j])
  {
  }

  lemma WorkshopgreenscreenApart()
    ensures forall j, k :: 0 <= j < |WORKSHOPGREENSCREEN| && 0 <= k < |ALL_MAP_NAMES| && k != 32 ==>
      WORKSHOPGREENSCREEN[j] !in ALL_MAP_NAMES[k]
  {
  }

  lemma WorkshopislandAliases()
    ensures forall j :: 0 <= j < |WORKSHOPISLAND| ==> IsLowerCased(WORKSHOPISLAND[j]) && AllAsciiAlnum(WORKSHOPISLAND[j])
  {
  }

  lemma WorkshopislandApart()
    ensures forall j, k :: 0 <= j < |WORKSHOPISLAND| && 0 <= k < |ALL_MAP_NAMES| && k != 33 ==>
      WORKSHOPISLAND[j] !in ALL_MAP_NAMES[k]
  {
  }

  lemma FrameworkAliases()
    ensures forall j :: 0 <= j < |FRAMEWORK| ==> IsLowerCased(FRAMEWORK[j]) && AllAsciiAlnum(FRAMEWORK[j])
  {
  }

  lemma FrameworkApart()
    ensures forall j, k :: 0 <= j < |FRAMEWORK| && 0 <= k < |ALL_MAP_NAMES| && k != 34 ==>
      FRAMEWORK[j] !in ALL_MAP_NAMES[k]
  {
  }

  /** The map types are distinct and upper case. */
  lemma TypesDistinctUpper()
    ensures forall i, j :: 0 <= i < j < |TYPES_OF_MAP| ==> TYPES_OF_MAP[i] != TYPES_OF_MAP[j]
    ensures forall i :: 0 <= i < |TYPES_OF_MAP| ==> IsUpperCased(TYPES_OF_MAP[i])
  {
  }
}
