/** The preparation of a pinned historical deck: the grammar it is read with, the rewrite it gets, and their product. */
module DeckPreparation {
  import opened Wrappers
  import opened DeckText
  import opened DeckGrammar
  import opened DeckRewrite
  import opened DeckDelta

  const GROUPS: seq<string> := [CONTROL, "SYSTEM", "ELECTRONS", "IONS", "CELL"]

  const CONTROL_KEYS: set<string> :=
    {"calculation", "etot_conv_thr", "forc_conv_thr", "outdir", "prefix", "pseudo_dir", "restart_mode", "tprnfor",
      "tstress"}
  const SYSTEM_KEYS: set<string> := {"degauss", "ecutwfc", "ibrav", "la2f", "occupations", "smearing", "nat", "ntyp"}
  const CELL_SIZES: set<string> := {"celldm(1)", "celldm(3)"}
  const ELECTRON_KEYS: set<string> := {"conv_thr", "diagonalization", "mixing_beta", "mixing_mode"}
  const MAX_STEP: string := "electron_maxstep"

  /** The grammar of source decks; `bounded` is the magnitude check on numbers. */
  function Nml(bounded: string -> bool): Table {
    Table(GROUPS,
          map[CONTROL := CONTROL_KEYS, "SYSTEM" := SYSTEM_KEYS + CELL_SIZES, "ELECTRONS" := ELECTRON_KEYS + {MAX_STEP},
              "IONS" := {"ion_dynamics"}, "CELL" := {"cell_dynamics", "press_conv_thr"}],
          bounded)
  }

  datatype Phase = Initialize | Scf

  /** What the pinned profile says of a source: the cell sizes it states, whether it states the step limit, the derived
      settings, and (`agrees`) whether a deck's values and cards are the pinned ones. */
  datatype State = State(id: string, sizes: set<string>, statesMaxStep: bool, ecutrho: nat, nbnd: nat,
      agrees: Deck -> bool)

  function Expected(state: State): map<string, set<string>> {
    map[CONTROL := CONTROL_KEYS, "SYSTEM" := SYSTEM_KEYS + state.sizes,
        "ELECTRONS" := ELECTRON_KEYS + if state.statesMaxStep then {MAX_STEP} else {},
        "IONS" := {"ion_dynamics"}, "CELL" := {"cell_dynamics", "press_conv_thr"}]
  }

  /** Reading a source: the grammar, exactly the expected fields, and the pinned values. */
  function ParseSource(bounded: string -> bool, state: State, text: string): Option<Deck> {
    match ReadText(Nml(bounded), text)
    case None => None
    case Some(d) =>
      if (forall g :: g in GROUPS ==> g in d.fields && d.fields[g].Keys == Expected(state)[g]) && state.agrees(d) then
        Some(d) else None
  }

  function Decimal(n: nat): (s: string)
    ensures Digits(s)
  {
    if n < 10 then [('0' as int + n) as char] else Decimal(n / 10) + [('0' as int + n % 10) as char]
  }

  /** The number that digits stand for. */
  ghost function NumberOf(s: string): int {
    if s == "" then 0 else 10 * NumberOf(s[..|s| - 1]) + (s[|s| - 1] as int - '0' as int)
  }

  /** The digits stand for the number, with no zero in front. */
  ghost predicate Writes(s: string, n: nat) {
    Digits(s) && NumberOf(s) == n && (|s| > 1 ==> s[0] != '0')
  }

  lemma {:induction false} DecimalWrites(n: nat)
    ensures Writes(Decimal(n), n) && (n > 0 ==> Decimal(n)[0] != '0')
  {
    if n >= 10 {
      DecimalWrites(n / 10);
      var last := ('0' as int + n % 10) as char;
      assert Decimal(n)[..|Decimal(n)| - 1] == Decimal(n / 10) && Decimal(n)[|Decimal(n)| - 1] == last;
    } else {
      assert Decimal(n)[..0] == "";
    }
  }

  function PhaseName(phase: Phase): string {
    if phase.Initialize? then "initialize" else "scf"
  }

  function Prefix(state: State, phase: Phase): string {
    "sclib_pbesol_" + state.id + "_" + PhaseName(phase)
  }

  predicate SafePrefix(prefix: string) {
    1 <= |prefix| <= 64 && forall i :: 0 <= i < |prefix| ==>
      'a' <= prefix[i] <= 'z' || IsDigit(prefix[i]) || prefix[i] == '_'
  }

  function ControlAdditions(phase: Phase): Fields {
    [("nstep", if phase.Initialize? then "0" else "1"), ("max_seconds", "600")]
  }

  function SystemAdditions(state: State): Fields {
    [("ecutrho", Decimal(state.ecutrho)), ("nbnd", Decimal(state.nbnd)), ("nspin", "1"), ("noncolin", ".FALSE."),
     ("lspinorb", ".FALSE."), ("tot_charge", "0")]
  }

  function ElectronAdditions(state: State): Fields {
    if state.statesMaxStep then [] else [(MAX_STEP, "100")]
  }

  function RewriteFor(state: State, phase: Phase): Rewrite {
    Rewrite({"IONS", "CELL"}, {"etot_conv_thr", "forc_conv_thr"},
            map["outdir" := "'./out'", "pseudo_dir" := "'./pseudo'", "prefix" := "'" + Prefix(state, phase) + "'"],
            map[CONTROL := ControlAdditions(phase), "SYSTEM" := SystemAdditions(state),
              "ELECTRONS" := ElectronAdditions(state)])
  }

  /** Written integers pass the magnitude check. */
  ghost predicate Modest(bounded: string -> bool, state: State) {
    bounded("0") && bounded("1") && bounded("600") && bounded("100") && bounded(Decimal(state.ecutrho)) &&
      bounded(Decimal(state.nbnd))
  }

  lemma DropsAndReplacements(state: State, phase: Phase, t: Table)
    requires SafePrefix(Prefix(state, phase))
    ensures var w := RewriteFor(state, phase);
            w.dropped !! w.replaced.Keys && forall k :: k in w.replaced ==> GoodField(t, (k, w.replaced[k]))
  {
    hide Prefix, ControlAdditions, SystemAdditions, ElectronAdditions;
  }

  lemma GoodNumber(t: Table, key: string, literal: string)
    requires PlainKey(key) && Digits(literal) && t.bounded(literal)
    ensures GoodField(t, (key, literal))
  {
  }

  lemma GoodFalse(t: Table, key: string)
    requires PlainKey(key)
    ensures GoodField(t, (key, ".FALSE."))
  {
    assert Lower(".FALSE.") == ".false.";
  }

  lemma GoodControl(bounded: string -> bool, state: State, phase: Phase)
    requires Modest(bounded, state)
    ensures GoodFields(Nml(bounded), ControlAdditions(phase))
  {
    hide GoodField, Decimal;
    var t := Nml(bounded);
    GoodNumber(t, "nstep", if phase.Initialize? then "0" else "1");
    GoodNumber(t, "max_seconds", "600");
  }

  lemma GoodSystem(bounded: string -> bool, state: State)
    requires Modest(bounded, state)
    ensures GoodFields(Nml(bounded), SystemAdditions(state))
  {
    hide GoodField, Decimal;
    var t := Nml(bounded);
    GoodNumber(t, "ecutrho", Decimal(state.ecutrho));
    GoodNumber(t, "nbnd", Decimal(state.nbnd));
    GoodNumber(t, "nspin", "1");
    GoodFalse(t, "noncolin");
    GoodFalse(t, "lspinorb");
    GoodNumber(t, "tot_charge", "0");
    assert "noncolin"[0] != "lspinorb"[0];
  }

  lemma GoodElectrons(bounded: string -> bool, state: State)
    requires Modest(bounded, state)
    ensures GoodFields(Nml(bounded), ElectronAdditions(state))
  {
    hide GoodField, Decimal;
    GoodNumber(Nml(bounded), MAX_STEP, "100");
  }

  lemma RewriteIsGood(bounded: string -> bool, state: State, phase: Phase)
    requires Modest(bounded, state) && SafePrefix(Prefix(state, phase))
    ensures GoodRewrite(RewriteFor(state, phase), Nml(bounded))
  {
    hide GoodField, GoodFields, Prefix, ControlAdditions, SystemAdditions, ElectronAdditions;
    DropsAndReplacements(state, phase, Nml(bounded));
    GoodControl(bounded, state, phase);
    GoodSystem(bounded, state);
    GoodElectrons(bounded, state);
  }

  /** No added field is among those expected of the source. */
  lemma AdditionsAreNew(state: State, phase: Phase)
    requires state.sizes <= CELL_SIZES
    ensures forall i :: 0 <= i < |ControlAdditions(phase)| ==> ControlAdditions(phase)[i].0 !in CONTROL_KEYS
    ensures forall i :: 0 <= i < |SystemAdditions(state)| ==> SystemAdditions(state)[i].0 !in SYSTEM_KEYS + state.sizes
    ensures forall i :: 0 <= i < |ElectronAdditions(state)| ==>
      ElectronAdditions(state)[i].0 !in Expected(state)["ELECTRONS"]
  {
    hide Decimal;
  }

  lemma FieldsAreExpected(bounded: string -> bool, state: State, text: string, d: Deck)
    requires ParseSource(bounded, state, text) == Some(d)
    ensures ReadText(Nml(bounded), text) == Some(d)
    ensures {CONTROL, "SYSTEM", "ELECTRONS", "IONS", "CELL"} <= d.fields.Keys
    ensures d.fields[CONTROL].Keys == CONTROL_KEYS && d.fields["SYSTEM"].Keys == SYSTEM_KEYS + state.sizes
    ensures d.fields["ELECTRONS"].Keys == Expected(state)["ELECTRONS"]
  {
    hide ReadText;
    assert CONTROL in GROUPS && "SYSTEM" in GROUPS && "ELECTRONS" in GROUPS && "IONS" in GROUPS && "CELL" in GROUPS;
  }

  lemma RewriteIsNew(state: State, phase: Phase, d: Deck)
    requires state.sizes <= CELL_SIZES && {CONTROL, "SYSTEM", "ELECTRONS"} <= d.fields.Keys
    requires d.fields[CONTROL].Keys == CONTROL_KEYS && d.fields["SYSTEM"].Keys == SYSTEM_KEYS + state.sizes
    requires d.fields["ELECTRONS"].Keys == Expected(state)["ELECTRONS"]
    ensures NoClash(RewriteFor(state, phase), d)
  {
    hide Prefix, ControlAdditions, SystemAdditions, ElectronAdditions, Expected;
    AdditionsAreNew(state, phase);
  }

  lemma RewriteFits(bounded: string -> bool, state: State, phase: Phase, text: string, d: Deck)
    requires Modest(bounded, state) && SafePrefix(Prefix(state, phase)) && state.sizes <= CELL_SIZES
    requires ParseSource(bounded, state, text) == Some(d)
    ensures ReadText(Nml(bounded), text) == Some(d) && Fits(RewriteFor(state, phase), Nml(bounded), d)
  {
    hide GoodRewrite, NoClash, Prefix, ControlAdditions, SystemAdditions, ElectronAdditions, ReadText, ParseSource,
      Nml, Expected;
    FieldsAreExpected(bounded, state, text, d);
    RewriteIsGood(bounded, state, phase);
    RewriteIsNew(state, phase, d);
  }

  /** The five groups with exactly the fields expected. */
  ghost predicate HasPinnedFields(state: State, fields: map<string, map<string, Entry>>) {
    && fields.Keys == {"CONTROL", "SYSTEM", "ELECTRONS", "IONS", "CELL"}
    && fields["CONTROL"].Keys == CONTROL_KEYS && fields["SYSTEM"].Keys == SYSTEM_KEYS + state.sizes
    && fields["ELECTRONS"].Keys == (if state.statesMaxStep then ELECTRON_KEYS + {MAX_STEP} else ELECTRON_KEYS)
    && fields["IONS"].Keys == {"ion_dynamics"} && fields["CELL"].Keys == {"cell_dynamics", "press_conv_thr"}
  }

  /** A text that reads as the pinned source: its groups and cards in order, its fields, values and rows. */
  ghost predicate ReadsAsPinned(bounded: string -> bool, state: State, text: string) {
    var d := ReadText(Nml(bounded), text);
    && d.Some? && HasPinnedFields(state, d.value.fields) && state.agrees(d.value)
    && d.value.order == ["CONTROL", "SYSTEM", "ELECTRONS", "IONS", "CELL"]
    && d.value.cardOrder == ["ATOMIC_SPECIES", "ATOMIC_POSITIONS crystal", "K_POINTS automatic"]
  }

  lemma ParsedIsPinned(bounded: string -> bool, state: State, text: string)
    ensures ParseSource(bounded, state, text).Some? <==> ReadsAsPinned(bounded, state, text)
    ensures ParseSource(bounded, state, text).Some? ==>
      ParseSource(bounded, state, text) == ReadText(Nml(bounded), text)
  {
    var d := ReadText(Nml(bounded), text);
    hide ReadText, Nml;
    if d.Some? {
      KnownGroups(bounded, text);
      GroupsOneByOne(state, d.value);
      ExpectedOneByOne(state, d.value);
      hide Expected;
    }
  }

  lemma ExpectedOneByOne(state: State, d: Deck)
    ensures (forall g :: g in {"CONTROL", "SYSTEM", "ELECTRONS", "IONS", "CELL"} ==>
              g in d.fields && d.fields[g].Keys == Expected(state)[g]) <==>
      && {"CONTROL", "SYSTEM", "ELECTRONS", "IONS", "CELL"} <= d.fields.Keys
      && d.fields["CONTROL"].Keys == CONTROL_KEYS && d.fields["SYSTEM"].Keys == SYSTEM_KEYS + state.sizes
      && d.fields["ELECTRONS"].Keys == (if state.statesMaxStep then ELECTRON_KEYS + {MAX_STEP} else ELECTRON_KEYS)
      && d.fields["IONS"].Keys == {"ion_dynamics"} && d.fields["CELL"].Keys == {"cell_dynamics", "press_conv_thr"}
  {
    ExpectedNames(state);
    hide *;
  }

  lemma ExpectedNames(state: State)
    ensures var e := Expected(state);
      && e.Keys == {"CONTROL", "SYSTEM", "ELECTRONS", "IONS", "CELL"}
      && e["CONTROL"] == CONTROL_KEYS && e["SYSTEM"] == SYSTEM_KEYS + state.sizes
      && e["ELECTRONS"] == (if state.statesMaxStep then ELECTRON_KEYS + {MAX_STEP} else ELECTRON_KEYS)
      && e["IONS"] == {"ion_dynamics"} && e["CELL"] == {"cell_dynamics", "press_conv_thr"}
  {
  }

  lemma KnownGroups(bounded: string -> bool, text: string)
    requires ReadText(Nml(bounded), text).Some?
    ensures var d := ReadText(Nml(bounded), text).value;
      && d.fields.Keys <= {"CONTROL", "SYSTEM", "ELECTRONS", "IONS", "CELL"}
      && d.order == ["CONTROL", "SYSTEM", "ELECTRONS", "IONS", "CELL"]
      && d.cardOrder == ["ATOMIC_SPECIES", "ATOMIC_POSITIONS crystal", "K_POINTS automatic"]
  {
    GroupsAreKnown(Nml(bounded), SplitLines(text), |SplitLines(text)|);
    hide Read, SplitLines;
  }

  lemma GroupsOneByOne(state: State, d: Deck)
    ensures (forall g :: g in GROUPS ==> g in d.fields && d.fields[g].Keys == Expected(state)[g]) <==>
      (forall g :: g in {"CONTROL", "SYSTEM", "ELECTRONS", "IONS", "CELL"} ==>
        g in d.fields && d.fields[g].Keys == Expected(state)[g])
  {
    hide Expected;
    assert forall g :: g in GROUPS <==> g in {"CONTROL", "SYSTEM", "ELECTRONS", "IONS", "CELL"};
  }

  /** A group's settings: its own fields, and for some of them the source's literal. */
  ghost predicate Holds(settings: map<string, string>, keys: set<string>, kept: set<string>, source: map<string, Entry>)
  {
    && settings.Keys == keys && kept <= keys && kept <= source.Keys
    && (forall key :: key in kept ==> settings[key] == source[key].literal)
  }

  ghost predicate ControlIs(state: State, phase: Phase, source: map<string, Entry>, settings: map<string, string>) {
    && Holds(settings, {"calculation", "outdir", "prefix", "pseudo_dir", "restart_mode", "tprnfor", "tstress", "nstep",
                        "max_seconds"}, {"calculation", "restart_mode", "tprnfor", "tstress"}, source)
    && settings["nstep"] == (if phase == Initialize then "0" else "1") && settings["max_seconds"] == "600"
    && settings["outdir"] == "'./out'" && settings["pseudo_dir"] == "'./pseudo'"
    && settings["prefix"] == "'sclib_pbesol_" + state.id + (if phase == Initialize then "_initialize'" else "_scf'")
  }

  ghost predicate SystemIs(state: State, source: map<string, Entry>, settings: map<string, string>) {
    && Holds(settings, SYSTEM_KEYS + state.sizes + {"ecutrho", "nbnd", "nspin", "noncolin", "lspinorb", "tot_charge"},
             SYSTEM_KEYS + state.sizes, source)
    && Writes(settings["ecutrho"], state.ecutrho) && Writes(settings["nbnd"], state.nbnd)
    && settings["nspin"] == "1" && settings["tot_charge"] == "0"
    && settings["noncolin"] == settings["lspinorb"] == ".FALSE."
  }

  ghost predicate ElectronsAre(state: State, source: map<string, Entry>, settings: map<string, string>) {
    && Holds(settings, ELECTRON_KEYS + {MAX_STEP}, ELECTRON_KEYS + (if state.statesMaxStep then {MAX_STEP} else {}),
             source)
    && (!state.statesMaxStep ==> settings[MAX_STEP] == "100")
  }

  /** The settings of the derived deck, one by one. */
  ghost predicate SettingsAre(state: State, phase: Phase, d: Deck, settings: map<string, map<string, string>>)
    requires HasPinnedFields(state, d.fields)
  {
    && settings.Keys == {"CONTROL", "SYSTEM", "ELECTRONS"}
    && ControlIs(state, phase, d.fields["CONTROL"], settings["CONTROL"])
    && SystemIs(state, d.fields["SYSTEM"], settings["SYSTEM"])
    && ElectronsAre(state, d.fields["ELECTRONS"], settings["ELECTRONS"])
  }

  lemma AsMapSnoc(fields: Fields, key: string, literal: string)
    ensures AsMap(fields + [(key, literal)]) == AsMap(fields)[key := literal]
  {
    assert (fields + [(key, literal)])[..|fields|] == fields;
  }

  lemma ControlAdded(phase: Phase)
    ensures AsMap(ControlAdditions(phase)) ==
      map["nstep" := if phase == Initialize then "0" else "1", "max_seconds" := "600"]
  {
    var step := if phase.Initialize? then "0" else "1";
    AsMapSnoc([], "nstep", step);
    AsMapSnoc([("nstep", step)], "max_seconds", "600");
    assert ControlAdditions(phase) == [("nstep", step)] + [("max_seconds", "600")];
    assert [("nstep", step)] == [] + [("nstep", step)];
  }

  lemma SystemAdded(state: State)
    ensures AsMap(SystemAdditions(state)) ==
      map["ecutrho" := Decimal(state.ecutrho), "nbnd" := Decimal(state.nbnd), "nspin" := "1", "noncolin" := ".FALSE.",
          "lspinorb" := ".FALSE.", "tot_charge" := "0"]
  {
    hide Decimal;
    var all := SystemAdditions(state);
    assert all[..1] == all[..0] + [("ecutrho", Decimal(state.ecutrho))];
    AsMapSnoc(all[..0], "ecutrho", Decimal(state.ecutrho));
    assert all[..2] == all[..1] + [("nbnd", Decimal(state.nbnd))];
    AsMapSnoc(all[..1], "nbnd", Decimal(state.nbnd));
    assert all[..3] == all[..2] + [("nspin", "1")];
    AsMapSnoc(all[..2], "nspin", "1");
    assert all[..4] == all[..3] + [("noncolin", ".FALSE.")];
    AsMapSnoc(all[..3], "noncolin", ".FALSE.");
    assert all[..5] == all[..4] + [("lspinorb", ".FALSE.")];
    AsMapSnoc(all[..4], "lspinorb", ".FALSE.");
    assert all[..6] == all[..5] + [("tot_charge", "0")] && all[..6] == all;
    AsMapSnoc(all[..5], "tot_charge", "0");
    hide AsMap;
  }

  lemma ElectronAdded(state: State)
    ensures AsMap(ElectronAdditions(state)) == if state.statesMaxStep then map[] else map[MAX_STEP := "100"]
  {
    AsMapSnoc([], MAX_STEP, "100");
    assert [(MAX_STEP, "100")] == [] + [(MAX_STEP, "100")];
  }

  /** Literals without the dropped ones, then the replacements, then the additions. */
  lemma Layered(source: map<string, Entry>, dropped: set<string>, replaced: map<string, string>,
                added: map<string, string>, settings: map<string, string>, kept: set<string>)
    requires settings == (Literals(source) - dropped) + replaced + added
    requires kept <= source.Keys && kept !! dropped && kept !! replaced.Keys && kept !! added.Keys
    requires replaced.Keys !! added.Keys
    ensures Holds(settings, source.Keys - dropped + replaced.Keys + added.Keys, kept, source)
    ensures forall k :: k in replaced ==> settings[k] == replaced[k]
    ensures forall k :: k in added ==> settings[k] == added[k]
  {
  }

  lemma ControlNames()
    ensures CONTROL_KEYS - {"etot_conv_thr", "forc_conv_thr"} + {"outdir", "pseudo_dir", "prefix"} +
            {"nstep", "max_seconds"} ==
            {"calculation", "outdir", "prefix", "pseudo_dir", "restart_mode", "tprnfor", "tstress", "nstep",
             "max_seconds"}
    ensures var kept: set<string> := {"calculation", "restart_mode", "tprnfor", "tstress"};
      && kept <= CONTROL_KEYS && kept !! {"etot_conv_thr", "forc_conv_thr"}
      && kept !! {"outdir", "pseudo_dir", "prefix"} && kept !! {"nstep", "max_seconds"}
    ensures {"outdir", "pseudo_dir", "prefix"} !! {"nstep", "max_seconds"}
  {
  }

  lemma Replacements(state: State, phase: Phase)
    ensures var w := RewriteFor(state, phase);
      && w.dropped == {"etot_conv_thr", "forc_conv_thr"} && w.replaced.Keys == {"outdir", "pseudo_dir", "prefix"}
      && w.replaced["outdir"] == "'./out'" && w.replaced["pseudo_dir"] == "'./pseudo'"
      && w.replaced["prefix"] == "'" + Prefix(state, phase) + "'"
  {
    hide Prefix, ControlAdditions, SystemAdditions, ElectronAdditions;
  }

  lemma ControlSettings(state: State, phase: Phase, source: map<string, Entry>)
    requires source.Keys == CONTROL_KEYS
    ensures ControlIs(state, phase, source,
                      Trimmed(RewriteFor(state, phase), CONTROL, source) + AsMap(ControlAdditions(phase)))
  {
    var w, added := RewriteFor(state, phase), AsMap(ControlAdditions(phase));
    var settings := Trimmed(w, CONTROL, source) + added;
    TrimmedControl(w, source);
    ControlAdded(phase);
    ControlAddedNames(phase);
    PrefixLiteral(state, phase);
    Replacements(state, phase);
    ControlNames();
    hide RewriteFor, AsMap, Trimmed, ControlAdditions, Prefix, Holds, Literals;
    Layered(source, {"etot_conv_thr", "forc_conv_thr"}, w.replaced, added, settings,
            {"calculation", "restart_mode", "tprnfor", "tstress"});
  }

  lemma TrimmedControl(w: Rewrite, source: map<string, Entry>)
    ensures Trimmed(w, CONTROL, source) == (Literals(source) - w.dropped) + w.replaced
  {
  }

  lemma ControlAddedNames(phase: Phase)
    ensures var added := AsMap(ControlAdditions(phase));
      && added.Keys == {"nstep", "max_seconds"}
      && added["nstep"] == (if phase == Initialize then "0" else "1") && added["max_seconds"] == "600"
  {
    ControlAdded(phase);
    hide AsMap, ControlAdditions;
  }

  lemma PrefixIsSafe(state: State, phase: Phase)
    ensures var prefix := "sclib_pbesol_" + state.id + (if phase == Initialize then "_initialize" else "_scf");
      SafePrefix(Prefix(state, phase)) <==>
      |prefix| <= 64 && forall c :: c in prefix ==> 'a' <= c <= 'z' || '0' <= c <= '9' || c == '_'
  {
    var prefix := "sclib_pbesol_" + state.id + (if phase == Initialize then "_initialize" else "_scf");
    assert Prefix(state, phase) == prefix;
    hide Prefix;
    if SafePrefix(prefix) {
      forall c | c in prefix ensures 'a' <= c <= 'z' || '0' <= c <= '9' || c == '_' {
        var i :| 0 <= i < |prefix| && prefix[i] == c;
      }
    }
    if forall c :: c in prefix ==> 'a' <= c <= 'z' || '0' <= c <= '9' || c == '_' {
      forall i | 0 <= i < |prefix| ensures 'a' <= prefix[i] <= 'z' || IsDigit(prefix[i]) || prefix[i] == '_' {
        assert prefix[i] in prefix;
      }
    }
  }

  lemma PrefixLiteral(state: State, phase: Phase)
    ensures "'" + Prefix(state, phase) + "'" ==
      "'sclib_pbesol_" + state.id + if phase == Initialize then "_initialize'" else "_scf'"
  {
  }

  lemma TrimmedElsewhere(w: Rewrite, g: string, source: map<string, Entry>)
    requires g != CONTROL
    ensures Trimmed(w, g, source) == (Literals(source) - {}) + map[]
  {
  }

  lemma SystemAddedNames(state: State)
    ensures var added := AsMap(SystemAdditions(state));
      && added.Keys == {"ecutrho", "nbnd", "nspin", "noncolin", "lspinorb", "tot_charge"}
      && Writes(added["ecutrho"], state.ecutrho) && Writes(added["nbnd"], state.nbnd)
      && added["nspin"] == "1" && added["tot_charge"] == "0" && added["noncolin"] == added["lspinorb"] == ".FALSE."
  {
    SystemAdded(state);
    DecimalWrites(state.ecutrho);
    DecimalWrites(state.nbnd);
    hide AsMap, SystemAdditions, Decimal, Writes;
    assert "noncolin"[0] != "lspinorb"[0];
  }

  lemma SystemNames(sizes: set<string>)
    requires sizes <= CELL_SIZES
    ensures SYSTEM_KEYS + sizes !! {"ecutrho", "nbnd", "nspin", "noncolin", "lspinorb", "tot_charge"}
  {
  }

  lemma SystemSettings(state: State, phase: Phase, source: map<string, Entry>)
    requires source.Keys == SYSTEM_KEYS + state.sizes && state.sizes <= CELL_SIZES
    ensures SystemIs(state, source,
                     Trimmed(RewriteFor(state, phase), "SYSTEM", source) + AsMap(SystemAdditions(state)))
  {
    var w, added := RewriteFor(state, phase), AsMap(SystemAdditions(state));
    TrimmedElsewhere(w, "SYSTEM", source);
    SystemAddedNames(state);
    SystemNames(state.sizes);
    hide *;
    Layered(source, {}, map[], added, Trimmed(w, "SYSTEM", source) + added, source.Keys);
    var none: map<string, string> := map[];
    assert source.Keys - {} + none.Keys + added.Keys == source.Keys + added.Keys;
  }

  lemma ElectronSettings(state: State, phase: Phase, source: map<string, Entry>)
    requires source.Keys == if state.statesMaxStep then ELECTRON_KEYS + {MAX_STEP} else ELECTRON_KEYS
    ensures ElectronsAre(state, source,
                         Trimmed(RewriteFor(state, phase), "ELECTRONS", source) + AsMap(ElectronAdditions(state)))
  {
    var w, added := RewriteFor(state, phase), AsMap(ElectronAdditions(state));
    TrimmedElsewhere(w, "ELECTRONS", source);
    ElectronAdded(state);
    assert MAX_STEP !in ELECTRON_KEYS;
    hide *;
    Layered(source, {}, map[], added, Trimmed(w, "ELECTRONS", source) + added, source.Keys);
  }

  lemma SettingsOf(state: State, phase: Phase, d: Deck)
    requires state.sizes <= CELL_SIZES && HasPinnedFields(state, d.fields)
    ensures SettingsAre(state, phase, d, Returned(RewriteFor(state, phase), d))
  {
    hide AsMap, ControlAdditions, SystemAdditions, ElectronAdditions, Trimmed, ControlIs, SystemIs, ElectronsAre,
      RewriteFor, Returned;
    ControlSettings(state, phase, d.fields["CONTROL"]);
    SystemSettings(state, phase, d.fields["SYSTEM"]);
    ElectronSettings(state, phase, d.fields["ELECTRONS"]);
    ReturnedByGroup(state, phase, d);
  }

  /** What each returned setting of an accepted source is: its own literal, the replacement or the addition. */
  lemma SettingsByField(bounded: string -> bool, state: State, phase: Phase, text: string)
    requires state.sizes <= CELL_SIZES && ReadsAsPinned(bounded, state, text)
    ensures var d := ReadText(Nml(bounded), text).value;
      SettingsAre(state, phase, d, Returned(RewriteFor(state, phase), d))
  {
    hide ReadText, SettingsAre, Returned, RewriteFor, HasPinnedFields;
    SettingsOf(state, phase, ReadText(Nml(bounded), text).value);
  }

  lemma ReturnedByGroup(state: State, phase: Phase, d: Deck)
    requires d.fields.Keys == {"CONTROL", "SYSTEM", "ELECTRONS", "IONS", "CELL"}
    ensures var w := RewriteFor(state, phase);
      var settings := Returned(w, d);
      && settings.Keys == {"CONTROL", "SYSTEM", "ELECTRONS"}
      && settings["CONTROL"] == Trimmed(w, CONTROL, d.fields["CONTROL"]) + AsMap(ControlAdditions(phase))
      && settings["SYSTEM"] == Trimmed(w, "SYSTEM", d.fields["SYSTEM"]) + AsMap(SystemAdditions(state))
      && settings["ELECTRONS"] == Trimmed(w, "ELECTRONS", d.fields["ELECTRONS"]) + AsMap(ElectronAdditions(state))
  {
    hide AsMap, Trimmed, ControlAdditions, SystemAdditions, ElectronAdditions, Prefix;
  }

  /** A source's derived deck, with its ledger and settings; refused exactly for a source that does not read as pinned
      or an unsafe prefix. The settings are the source's, each replaced or added one by its name; re-reading the derived
      deck gives those settings and the source's cards. */
  method Prepare(bounded: string -> bool, state: State, phase: Phase, text: string) returns (r: Option<Derivation>)
    requires Modest(bounded, state) && state.sizes <= CELL_SIZES
    ensures r.Some? <==>
      && ReadsAsPinned(bounded, state, text)
      && var prefix := "sclib_pbesol_" + state.id + (if phase == Initialize then "_initialize" else "_scf");
        |prefix| <= 64 && forall c :: c in prefix ==> 'a' <= c <= 'z' || '0' <= c <= '9' || c == '_'
    ensures r.Some? ==> Accounts(r.value.ledger, SplitLines(text), SplitLines(r.value.text))
    ensures r.Some? ==>
      Explains(r.value.ledger, RewriteFor(state, phase), ReadText(Nml(bounded), text).value, SplitLines(text))
    ensures r.Some? ==> SettingsAre(state, phase, ReadText(Nml(bounded), text).value, r.value.settings)
    ensures r.Some? ==>
      var again := ReadText(Extended(Nml(bounded), RewriteFor(state, phase)), r.value.text);
      again.Some? && Shown(again.value.fields) == r.value.settings &&
      Texts(again.value.cards) == Texts(ReadText(Nml(bounded), text).value.cards)
  {
    hide ReadText, ParseSource, Accounts, Returned, Shown, Texts, Extended, Fits, Modest, Prefix, HasPinnedFields,
      SettingsAre, RewriteFor, Explains;
    ParsedIsPinned(bounded, state, text);
    PrefixIsSafe(state, phase);
    var parsed := ParseSource(bounded, state, text);
    if parsed.None? || !SafePrefix(Prefix(state, phase)) { return None; }
    var w := RewriteFor(state, phase);
    RewriteFits(bounded, state, phase, text, parsed.value);
    r := Derive(Nml(bounded), text, parsed.value, w);
    SettingsByField(bounded, state, phase, text);
    assert r.value.settings == Returned(w, parsed.value);
    var again := Commutes(w, Nml(bounded), text, parsed.value);
  }
}
