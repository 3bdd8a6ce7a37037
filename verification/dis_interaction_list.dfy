/**
 * The list of deep-inelastic (DIS) interaction channels that a neutrino or
 * antineutrino probe can have on a target nucleus: one channel per struck
 * nucleon the target has, protons first, all charged-current or all
 * neutral-current as the configuration selects, charm-tagged on request.
 * No channel at all is reported as a null list (None).
 */
module DISInteractionList {
  import opened Options

  // Particle codes of the PDG Monte Carlo numbering scheme.
  const PdgProton: int := 2212
  const PdgNeutron: int := 2112
  const PdgNuE: int := 12
  const PdgNuMu: int := 14
  const PdgNuTau: int := 16
  const PdgAntiNuE: int := -12
  const PdgAntiNuMu: int := -14
  const PdgAntiNuTau: int := -16

  predicate IsNeutrino(pdg: int)
  {
    pdg == PdgNuE || pdg == PdgNuMu || pdg == PdgNuTau
  }

  predicate IsAntiNeutrino(pdg: int)
  {
    pdg == PdgAntiNuE || pdg == PdgAntiNuMu || pdg == PdgAntiNuTau
  }

  /** Weak charged-current or weak neutral-current. */
  datatype InteractionType = WeakCC | WeakNC

  /** Scattering regimes; this generator only produces DeepInelastic. */
  datatype ScatteringType = QuasiElastic | DeepInelastic

  datatype ProcessInfo = ProcessInfo(scattering: ScatteringType, interaction: InteractionType)

  /** A nucleus of z protons and n neutrons, and the struck nucleon once one is bound. */
  datatype Target = Target(z: int, n: int, struckNucleon: Option<int>)

  datatype InitialState = InitialState(probe: int, target: Target)

  /** The exclusive final-state tag; by default it restricts nothing. */
  datatype XclsTag = XclsTag(charm: bool)

  const NoExclusiveTag: XclsTag := XclsTag(false)

  datatype Interaction = Interaction(initialState: InitialState, process: ProcessInfo, exclusiveTag: XclsTag)

  /** The generator's configuration: each of the three flags may be absent. */
  datatype Config = Config(isCC: Option<bool>, isNC: Option<bool>, isCharm: Option<bool>)

  /** The value of a configuration flag, false when the flag is absent. */
  function FlagValue(flag: Option<bool>): (b: bool)
    ensures b <==> flag == Some(true)
  {
    if flag.Some? then flag.value else false
  }

  /** The struck nucleon bound in an interaction's target, 0 when none is. */
  function StruckNucleon(x: Interaction): int
  {
    if x.initialState.target.struckNucleon.Some? then x.initialState.target.struckNucleon.value else 0
  }

  /**
   * The interaction type the configuration selects: charged-current when
   * is-CC is set (whatever is-NC says), neutral-current when only is-NC is,
   * none when neither is.
   */
  function SelectedType(config: Config): (t: Option<InteractionType>)
    ensures t == Some(WeakCC) <==> FlagValue(config.isCC)
    ensures t == Some(WeakNC) <==> !FlagValue(config.isCC) && FlagValue(config.isNC)
    ensures t == None <==> !FlagValue(config.isCC) && !FlagValue(config.isNC)
  {
    if FlagValue(config.isCC) then Some(WeakCC)
    else if FlagValue(config.isNC) then Some(WeakNC)
    else None
  }

  /**
   * `x` is a channel generated for `init`: deep-inelastic of type `inttype`,
   * charm-tagged exactly when `charm`, its initial state that of `init` with
   * a proton or a neutron bound as struck nucleon.
   */
  ghost predicate IsChannelOf(x: Interaction, init: InitialState, inttype: InteractionType, charm: bool)
  {
    && x.process == ProcessInfo(DeepInelastic, inttype)
    && x.exclusiveTag.charm == charm
    && (StruckNucleon(x) == PdgProton || StruckNucleon(x) == PdgNeutron)
    && x.initialState == init.(target := init.target.(struckNucleon := Some(StruckNucleon(x))))
  }

  /** The channel with nucleon `struck` bound as struck nucleon. */
  function Channel(init: InitialState, struck: int, inttype: InteractionType, charm: bool): (x: Interaction)
    requires struck == PdgProton || struck == PdgNeutron
    ensures IsChannelOf(x, init, inttype, charm) && StruckNucleon(x) == struck
  {
    Interaction(init.(target := init.target.(struckNucleon := Some(struck))),
                ProcessInfo(DeepInelastic, inttype),
                XclsTag(charm))
  }

  /**
   * The reference definition of the generator's result: None when no
   * interaction type is selected, when the probe is not a (anti)neutrino,
   * or when the target has neither protons nor neutrons; otherwise the
   * proton channel (if Z > 0) followed by the neutron channel (if N > 0).
   */
  function DISChannels(config: Config, init: InitialState): (r: Option<seq<Interaction>>)
    ensures r.None? <==>
              || SelectedType(config).None?
              || (!IsNeutrino(init.probe) && !IsAntiNeutrino(init.probe))
              || (init.target.z <= 0 && init.target.n <= 0)
    ensures r.Some? ==> 1 <= |r.value| <= 2
  {
    match SelectedType(config)
    case None => None
    case Some(inttype) =>
      if !IsNeutrino(init.probe) && !IsAntiNeutrino(init.probe) then None
      else
        var charm := FlagValue(config.isCharm);
        var channels :=
          (if init.target.z > 0 then [Channel(init, PdgProton, inttype, charm)] else []) +
          (if init.target.n > 0 then [Channel(init, PdgNeutron, inttype, charm)] else []);
        if channels == [] then None else Some(channels)
  }

  /**
   * CreateInteractionList: decodes the flags, checks the probe, then walks
   * the nucleons in the fixed order proton, neutron and appends a channel
   * for each one the target has; an empty list is returned as None.
   */
  method CreateInteractionList(config: Config, init: InitialState) returns (intlist: Option<seq<Interaction>>)
    ensures intlist == DISChannels(config, init)
  {
    var isCC := FlagValue(config.isCC);
    var isNC := FlagValue(config.isNC);
    var isCharm := FlagValue(config.isCharm);

    var inttype: InteractionType;
    if isCC {
      inttype := WeakCC;
    } else if isNC {
      inttype := WeakNC;
    } else {
      return None;
    }

    var nupdg := init.probe;
    if !IsNeutrino(nupdg) && !IsAntiNeutrino(nupdg) {
      return None;
    }

    var hasP := init.target.z > 0;
    var hasN := init.target.n > 0;

    var list: seq<Interaction> := [];
    var nuclpdg := new int[2][PdgProton, PdgNeutron];

    for inucl := 0 to 2
      invariant nuclpdg[0] == PdgProton && nuclpdg[1] == PdgNeutron
      invariant list ==
        (if inucl >= 1 && hasP then [Channel(init, PdgProton, inttype, isCharm)] else []) +
        (if inucl >= 2 && hasN then [Channel(init, PdgNeutron, inttype, isCharm)] else [])
    {
      var struck := nuclpdg[inucl];
      if (struck == PdgProton && hasP) || (struck == PdgNeutron && hasN) {
        var interaction := Interaction(init, ProcessInfo(DeepInelastic, inttype), NoExclusiveTag);
        var target := interaction.initialState.target.(struckNucleon := Some(struck));
        interaction := interaction.(initialState := interaction.initialState.(target := target));
        if isCharm {
          interaction := interaction.(exclusiveTag := XclsTag(true));
        }
        list := list + [interaction];
      }
    }

    if |list| == 0 {
      return None;
    }
    return Some(list);
  }

  /**
   * Every channel is deep-inelastic, of the selected interaction type,
   * charm-tagged exactly when is-Charm is set, and keeps the input initial
   * state apart from the struck nucleon it binds.
   */
  lemma ChannelsHaveSelectedProcess(config: Config, init: InitialState)
    requires DISChannels(config, init).Some?
    ensures var list := DISChannels(config, init).value;
            forall i | 0 <= i < |list| ::
              IsChannelOf(list[i], init, SelectedType(config).value, FlagValue(config.isCharm))
  {
  }

  /** A proton channel is present exactly when Z > 0, a neutron channel exactly when N > 0. */
  lemma StruckNucleonAvailability(config: Config, init: InitialState)
    requires DISChannels(config, init).Some?
    ensures var list := DISChannels(config, init).value;
            && ((exists i | 0 <= i < |list| :: StruckNucleon(list[i]) == PdgProton) <==> init.target.z > 0)
            && ((exists i | 0 <= i < |list| :: StruckNucleon(list[i]) == PdgNeutron) <==> init.target.n > 0)
  {
    var list := DISChannels(config, init).value;
    if init.target.z > 0 {
      assert StruckNucleon(list[0]) == PdgProton;
    }
    if init.target.n > 0 {
      assert StruckNucleon(list[|list| - 1]) == PdgNeutron;
    }
  }

  /** The proton channel comes before the neutron channel, and no nucleon appears twice. */
  lemma ProtonChannelFirst(config: Config, init: InitialState)
    requires DISChannels(config, init).Some?
    ensures var list := DISChannels(config, init).value;
            forall i, j | 0 <= i < j < |list| ::
              StruckNucleon(list[i]) == PdgProton && StruckNucleon(list[j]) == PdgNeutron
  {
  }
}
