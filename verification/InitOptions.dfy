/**
 The named options of `agx init`: how a list of arguments is read, which lists can be read at all, and
 what becomes of the choices of a guided run that are printed, copied into a shell and read again.
 */
module InitOptions {
  import opened Wrappers
  import opened CommandLine

  // ---------------------------------------------------------------- the parser

  /** Reads arguments on top of the options already read. */
  function ParseFrom(args: seq<string>, allowed: map<string, bool>,
                     values: map<string, string>): Option<map<string, string>>
    decreases |args|
  {
    if args == [] then Some(values)
    else if args[0] !in allowed || args[0] in values then None
    else if !allowed[args[0]] then ParseFrom(args[1..], allowed, values[args[0] := "true"])
    else if |args| == 1 then None
    else ParseFrom(args[2..], allowed, values[args[0] := args[1]])
  }

  method ParseNamedOptions(args: seq<string>, allowed: map<string, bool>) returns (result: Option<map<string, string>>)
    ensures result == ParseFrom(args, allowed, map[])
  {
    var values: map<string, string> := map[];
    var seen: set<string> := {};
    var index := 0;
    assert args[0..] == args;
    while index < |args|
      invariant 0 <= index <= |args| && seen == values.Keys
      invariant ParseFrom(args[index..], allowed, values) == ParseFrom(args, allowed, map[])
    {
      var name := args[index];
      assert args[index..][1..] == args[index + 1..];
      assert index + 1 < |args| ==> args[index..][1] == args[index + 1] && args[index..][2..] == args[index + 2..];
      if name !in allowed || name in seen {
        return None;
      }
      seen := seen + {name};
      if !allowed[name] {
        values := values[name := "true"];
        index := index + 1;
        continue;
      }
      if index + 1 >= |args| {
        return None;
      }
      index := index + 1;
      values := values[name := args[index]];
      index := index + 1;
    }
    result := Some(values);
  }

  // ---------------------------------------------------------------- what it accepts

  datatype Setting = Valued(name: string, value: string) | Flag(name: string)

  function SettingWords(s: Setting): seq<string> {
    if s.Valued? then [s.name, s.value] else [s.name]
  }

  function Flatten(settings: seq<Setting>): seq<string> {
    if settings == [] then [] else SettingWords(settings[0]) + Flatten(settings[1..])
  }

  function ValueOf(s: Setting): string {
    if s.Valued? then s.value else "true"
  }

  function With(values: map<string, string>, settings: seq<Setting>): map<string, string>
    decreases |settings|
  {
    if settings == [] then values else With(values[settings[0].name := ValueOf(settings[0])], settings[1..])
  }

  /** Every setting is of a known option, in the form that option takes, and given once. */
  predicate Permitted(settings: seq<Setting>, allowed: map<string, bool>, taken: set<string>) {
    && (forall i :: 0 <= i < |settings| ==>
          settings[i].name in allowed && (allowed[settings[i].name] <==> settings[i].Valued?))
    && (forall i :: 0 <= i < |settings| ==> settings[i].name !in taken)
    && (forall i, j :: 0 <= i < j < |settings| ==> settings[i].name != settings[j].name)
  }

  lemma PermittedTail(settings: seq<Setting>, allowed: map<string, bool>, taken: set<string>)
    requires settings != []
    ensures Permitted(settings, allowed, taken) <==>
      && settings[0].name in allowed && (allowed[settings[0].name] <==> settings[0].Valued?)
        && settings[0].name !in taken
      && Permitted(settings[1..], allowed, taken + {settings[0].name})
  {}

  lemma {:induction false} SettingsAreRead(settings: seq<Setting>, allowed: map<string, bool>,
                                           values: map<string, string>)
    requires Permitted(settings, allowed, values.Keys)
    ensures ParseFrom(Flatten(settings), allowed, values) == Some(With(values, settings))
    decreases |settings|
  {
    if settings != [] {
      var s := settings[0];
      var args := Flatten(settings);
      var next := values[s.name := ValueOf(s)];
      PermittedTail(settings, allowed, values.Keys);
      assert next.Keys == values.Keys + {s.name};
      SettingsAreRead(settings[1..], allowed, next);
      assert args[0] == s.name;
      if s.Valued? {
        assert args[1] == s.value && args[2..] == Flatten(settings[1..]);
      } else {
        assert args[1..] == Flatten(settings[1..]);
      }
    }
  }

  lemma {:induction false} OnlySettingsAreRead(args: seq<string>, allowed: map<string, bool>,
                                               values: map<string, string>)
    returns (settings: seq<Setting>)
    requires ParseFrom(args, allowed, values).Some?
    ensures Permitted(settings, allowed, values.Keys) && Flatten(settings) == args
    decreases |args|
  {
    if args == [] {
      settings := [];
    } else {
      var s := if allowed[args[0]] then Valued(args[0], args[1]) else Flag(args[0]);
      var next := values[s.name := ValueOf(s)];
      var rest := OnlySettingsAreRead(args[|SettingWords(s)|..], allowed, next);
      assert next.Keys == values.Keys + {s.name};
      settings := [s] + rest;
      assert settings[1..] == rest;
      PermittedTail(settings, allowed, values.Keys);
      assert args == SettingWords(s) + args[|SettingWords(s)|..];
    }
  }

  /** The parser accepts exactly the lists that are settings, each allowed and given once, one after the
      other; and it returns exactly those settings. */
  lemma ParseExactly(args: seq<string>, allowed: map<string, bool>, result: map<string, string>)
    ensures ParseFrom(args, allowed, map[]) == Some(result) <==>
      exists settings ::
        Permitted(settings, allowed, {}) && Flatten(settings) == args && With(map[], settings) == result
  {
    var none: map<string, string> := map[];
    assert none.Keys == {};
    if ParseFrom(args, allowed, none) == Some(result) {
      var settings := OnlySettingsAreRead(args, allowed, none);
      SettingsAreRead(settings, allowed, none);
      assert Permitted(settings, allowed, {}) && Flatten(settings) == args && With(none, settings) == result;
    }
    forall settings | Permitted(settings, allowed, {}) && Flatten(settings) == args
      ensures ParseFrom(args, allowed, none) == Some(With(none, settings))
    {
      SettingsAreRead(settings, allowed, none);
    }
  }

  // ---------------------------------------------------------------- agx init

  const ROOT := "--root"
  const GITHUB_OWNER := "--github-owner"
  const PROVIDER := "--provider"
  const PROFILE := "--profile"
  const EVIDENCE_PROFILE := "--evidence-profile"
  const VISIBILITY := "--visibility"
  const CONTROL_REPO := "--control-repo"
  const CONTRACTS_REPO := "--contracts-repo"
  const WORKSPACE := "--multica-workspace-id"
  const RUNTIME := "--multica-runtime-id"
  const AGENT := "--multica-agent-id"
  const OUTPUT := "--output"
  const GUIDED := "--guided"

  const VALUE_OPTIONS: seq<string> :=
    [ROOT, GITHUB_OWNER, PROVIDER, PROFILE, EVIDENCE_PROFILE, VISIBILITY, CONTROL_REPO, CONTRACTS_REPO,
     WORKSPACE, RUNTIME, AGENT, OUTPUT]

  const INIT_OPTIONS: map<string, bool> :=
    map name | name in VALUE_OPTIONS + [APPLY, GUIDED] :: name in VALUE_OPTIONS

  /** No two options have the same name. */
  lemma OptionsDiffer()
    ensures forall i, j :: 0 <= i < j < |VALUE_OPTIONS| ==> VALUE_OPTIONS[i] != VALUE_OPTIONS[j]
    ensures APPLY !in VALUE_OPTIONS && GUIDED !in VALUE_OPTIONS && APPLY != GUIDED
  {}

  /** Copying the printed command runs what was planned, with `--apply`, unless an argument already
      is that word without being the option. */
  lemma RerunApplies(args: seq<string>, values: map<string, string>)
    requires ParseFrom(args, INIT_OPTIONS, map[]) == Some(values) && APPLY !in values
    ensures ParseFrom(InitArgs(args, true), INIT_OPTIONS, map[])
      == Some(if APPLY in args then values else values[APPLY := "true"])
  {
    hide VALUE_OPTIONS;
    if APPLY !in args {
      var none: map<string, string> := map[];
      var settings := OnlySettingsAreRead(args, INIT_OPTIONS, none);
      SettingsAreRead(settings, INIT_OPTIONS, none);
      NamesAreKeys(none, settings);
      OptionsDiffer();
      var more := settings + [Flag(APPLY)];
      assert APPLY in VALUE_OPTIONS + [APPLY, GUIDED];
      forall i | 0 <= i < |settings| ensures settings[i].name != APPLY {}
      assert Permitted(more, INIT_OPTIONS, none.Keys);
      SettingsAreRead(more, INIT_OPTIONS, none);
      Appended(none, settings, Flag(APPLY));
    }
  }

  lemma {:induction false} NamesAreKeys(values: map<string, string>, settings: seq<Setting>)
    ensures forall i :: 0 <= i < |settings| ==> settings[i].name in With(values, settings)
    ensures forall name :: name in values ==> name in With(values, settings)
    decreases |settings|
  {
    if settings != [] {
      NamesAreKeys(values[settings[0].name := ValueOf(settings[0])], settings[1..]);
      assert forall i :: 0 < i < |settings| ==> settings[i] == settings[1..][i - 1];
    }
  }

  lemma {:induction false} Appended(values: map<string, string>, settings: seq<Setting>, s: Setting)
    ensures Flatten(settings + [s]) == Flatten(settings) + SettingWords(s)
    ensures With(values, settings + [s]) == With(values, settings)[s.name := ValueOf(s)]
    decreases |settings|
  {
    var more := settings + [s];
    if settings == [] {
      assert more == [s] && more[1..] == [];
    } else {
      assert more[1..] == settings[1..] + [s];
      Appended(values[settings[0].name := ValueOf(settings[0])], settings[1..], s);
    }
  }

  // ---------------------------------------------------------------- guided runs

  datatype Choices = Choices(
    root: string, githubOwner: string, provider: string, profile: string, evidenceProfile: string, visibility: string,
    controlRepository: string, contractsRepository: string,
    multicaWorkspaceId: string, multicaRuntimeId: string, multicaAgentId: string)

  const MULTICA := "multica-execution/v1"

  function GuidedApplyArgs(c: Choices): seq<string> {
    var args := [
      ROOT, c.root, GITHUB_OWNER, c.githubOwner, PROVIDER, c.provider, PROFILE, c.profile,
      EVIDENCE_PROFILE, c.evidenceProfile, VISIBILITY, c.visibility,
      CONTROL_REPO, c.controlRepository, CONTRACTS_REPO, c.contractsRepository];
    if c.evidenceProfile == MULTICA
    then args + [WORKSPACE, c.multicaWorkspaceId, RUNTIME, c.multicaRuntimeId, AGENT, c.multicaAgentId]
    else args
  }

  /** The values a guided run prints. */
  function Chosen(c: Choices): (values: seq<string>)
    ensures values != []
  {
    [c.root, c.githubOwner, c.provider, c.profile, c.evidenceProfile, c.visibility, c.controlRepository,
     c.contractsRepository]
    + if c.evidenceProfile == MULTICA then [c.multicaWorkspaceId, c.multicaRuntimeId, c.multicaAgentId] else []
  }

  /** Each of them after the option it belongs to. */
  function GuidedSettings(c: Choices): (settings: seq<Setting>)
    ensures |settings| == |Chosen(c)| <= |VALUE_OPTIONS|
    ensures forall i :: 0 <= i < |settings| ==> settings[i] == Valued(VALUE_OPTIONS[i], Chosen(c)[i])
  {
    seq(|Chosen(c)|, i requires 0 <= i < |Chosen(c)| => Valued(VALUE_OPTIONS[i], Chosen(c)[i]))
  }

  lemma {:induction false} FlattenedLength(settings: seq<Setting>)
    requires forall k :: 0 <= k < |settings| ==> settings[k].Valued?
    ensures |Flatten(settings)| == 2 * |settings|
    decreases |settings|
  {
    if settings != [] {
      FlattenedLength(settings[1..]);
    }
  }

  lemma {:induction false} FlattenedAt(settings: seq<Setting>, i: nat)
    requires i < |settings| && forall k :: 0 <= k < |settings| ==> settings[k].Valued?
    ensures |Flatten(settings)| == 2 * |settings|
    ensures Flatten(settings)[2 * i] == settings[i].name && Flatten(settings)[2 * i + 1] == settings[i].value
    decreases |settings|
  {
    FlattenedLength(settings);
    var rest := Flatten(settings[1..]);
    assert Flatten(settings) == [settings[0].name, settings[0].value] + rest;
    if i > 0 {
      FlattenedAt(settings[1..], i - 1);
      assert Flatten(settings)[2 * i] == rest[2 * (i - 1)] && Flatten(settings)[2 * i + 1] == rest[2 * (i - 1) + 1];
    }
  }

  lemma PairAt(c: Choices, i: nat)
    requires i < |Chosen(c)|
    ensures |GuidedApplyArgs(c)| == 2 * |Chosen(c)|
    ensures GuidedApplyArgs(c)[2 * i] == VALUE_OPTIONS[i] && GuidedApplyArgs(c)[2 * i + 1] == Chosen(c)[i]
  {
  }

  lemma GuidedArgsAreSettings(c: Choices)
    ensures GuidedApplyArgs(c) == Flatten(GuidedSettings(c))
  {
    hide Flatten, GuidedApplyArgs, Chosen, VALUE_OPTIONS;
    PairAt(c, 0);
    FlattenedLength(GuidedSettings(c));
    forall k | 0 <= k < |GuidedApplyArgs(c)| ensures GuidedApplyArgs(c)[k] == Flatten(GuidedSettings(c))[k] {
      FlattenedAt(GuidedSettings(c), k / 2);
      PairAt(c, k / 2);
      assert k == 2 * (k / 2) || k == 2 * (k / 2) + 1;
    }
  }

  lemma GuidedIsPermitted(c: Choices)
    ensures Permitted(GuidedSettings(c), INIT_OPTIONS, {})
  {
    OptionsDiffer();
    var settings := GuidedSettings(c);
    forall i | 0 <= i < |settings| ensures settings[i].name in INIT_OPTIONS && INIT_OPTIONS[settings[i].name] {
      assert VALUE_OPTIONS[i] in VALUE_OPTIONS;
    }
  }

  lemma {:induction false} ReadBack(values: map<string, string>, settings: seq<Setting>)
    requires forall i, j :: 0 <= i < j < |settings| ==> settings[i].name != settings[j].name
    ensures forall i :: 0 <= i < |settings| ==>
      settings[i].name in With(values, settings) && With(values, settings)[settings[i].name] == ValueOf(settings[i])
    ensures forall name :: name in With(values, settings) <==>
      name in values || exists i :: 0 <= i < |settings| && settings[i].name == name
    ensures forall name :: name in values && (forall i :: 0 <= i < |settings| ==> settings[i].name != name) ==>
      name in With(values, settings) && With(values, settings)[name] == values[name]
    decreases |settings|
  {
    if settings != [] {
      var tail := settings[1..];
      assert forall i :: 0 <= i < |tail| ==> tail[i] == settings[i + 1];
      assert forall i :: 0 < i < |settings| ==> settings[i] == tail[i - 1];
      ReadBack(values[settings[0].name := ValueOf(settings[0])], tail);
    }
  }

  /** A word that is no option's name is among the arguments exactly if it was chosen. */
  lemma AmongTheChosen(c: Choices, word: string)
    requires word !in VALUE_OPTIONS
    ensures word in GuidedApplyArgs(c) <==> word in Chosen(c)
  {}

  /** Reading the chosen values back into an empty map. */
  lemma ChosenAreRead(c: Choices, chosen: map<string, string>)
    requires chosen == With(map[], GuidedSettings(c))
    ensures forall i :: 0 <= i < |Chosen(c)| ==> VALUE_OPTIONS[i] in chosen && chosen[VALUE_OPTIONS[i]] == Chosen(c)[i]
    ensures forall name :: name in chosen ==> name in VALUE_OPTIONS[..|Chosen(c)|]
    ensures APPLY !in chosen
  {
    hide Chosen, Flatten, With;
    var settings := GuidedSettings(c);
    OptionsDiffer();
    GuidedIsPermitted(c);
    ReadBack(map[], settings);
    forall i | 0 <= i < |Chosen(c)|
      ensures VALUE_OPTIONS[i] in chosen && chosen[VALUE_OPTIONS[i]] == Chosen(c)[i]
    {
      assert settings[i] == Valued(VALUE_OPTIONS[i], Chosen(c)[i]);
    }
    forall name | name in chosen ensures name in VALUE_OPTIONS[..|Chosen(c)|] {
      var i :| 0 <= i < |settings| && settings[i].name == name;
      assert VALUE_OPTIONS[..|Chosen(c)|][i] == name;
    }
  }

  /** Options are printed as they are. */
  lemma OptionsAreStraight(i: nat)
    requires i < |VALUE_OPTIONS|
    ensures StraightQuotes(VALUE_OPTIONS[i])
  {}

  lemma FixedWordsAreStraight()
    ensures StraightQuotes("agx") && StraightQuotes("init") && StraightQuotes(APPLY)
  {}

  /** The printed arguments have typographic single quotes exactly if a chosen value has. */
  lemma StraightExactly(c: Choices)
    ensures var args := ["agx", "init"] + InitArgs(GuidedApplyArgs(c), true);
            (forall i :: 0 <= i < |args| ==> StraightQuotes(args[i]))
            <==> (forall i :: 0 <= i < |Chosen(c)| ==> StraightQuotes(Chosen(c)[i]))
  {
    hide Chosen, GuidedApplyArgs, StraightQuotes, VALUE_OPTIONS;
    var given := GuidedApplyArgs(c);
    var args := ["agx", "init"] + InitArgs(given, true);
    FixedWordsAreStraight();
    PairAt(c, 0);
    assert |GuidedSettings(c)| == |Chosen(c)| <= |VALUE_OPTIONS|;
    forall i | 0 <= i < |Chosen(c)| ensures args[2 * i + 3] == Chosen(c)[i] {
      PairAt(c, i);
    }
    if forall i :: 0 <= i < |Chosen(c)| ==> StraightQuotes(Chosen(c)[i]) {
      forall i | 0 <= i < |args| ensures StraightQuotes(args[i]) {
        if 2 <= i < |given| + 2 {
          var k := (i - 2) / 2;
          PairAt(c, k);
          OptionsAreStraight(k);
          assert i - 2 == 2 * k || i - 2 == 2 * k + 1;
        }
      }
    }
  }

  /**
   The whole way round: the shell splits the printed command into `agx`, `init` and the arguments, in
   PowerShell if and only if no chosen value has a typographic single quote; and from the arguments every
   chosen value is read back under its option.  The run applies the plan exactly if no chosen value is
   `--apply`, and it is a guided run again exactly if one is `--guided`.
   */
  lemma GuidedRoundTrip(c: Choices, platform: Platform) returns (args: seq<string>, values: map<string, string>)
    ensures args == InitArgs(GuidedApplyArgs(c), true)
    ensures Words(Join(QuoteAll(["agx", "init"] + args, platform)), platform) == Some(["agx", "init"] + args)
       <==> (platform.Windows? ==> forall i :: 0 <= i < |Chosen(c)| ==> StraightQuotes(Chosen(c)[i]))
    ensures ParseFrom(args, INIT_OPTIONS, map[]) == Some(values)
    ensures forall i :: 0 <= i < |Chosen(c)| ==> VALUE_OPTIONS[i] in values && values[VALUE_OPTIONS[i]] == Chosen(c)[i]
    ensures forall name :: name in values ==> name == APPLY || name in VALUE_OPTIONS[..|Chosen(c)|]
    ensures APPLY in values <==> APPLY !in Chosen(c)
    ensures GUIDED in args <==> GUIDED in Chosen(c)
  {
    hide Chosen, ParseFrom, Flatten, With, QuoteAll, Join, GuidedSettings, VALUE_OPTIONS, StraightQuotes, Words;
    var none: map<string, string> := map[];
    args := InitArgs(GuidedApplyArgs(c), true);
    QuotingRoundTrip(["agx", "init"] + args, platform);
    StraightExactly(c);
    OptionsDiffer();
    GuidedArgsAreSettings(c);
    GuidedIsPermitted(c);
    SettingsAreRead(GuidedSettings(c), INIT_OPTIONS, none);
    var chosen := With(none, GuidedSettings(c));
    ChosenAreRead(c, chosen);
    RerunApplies(GuidedApplyArgs(c), chosen);
    values := if APPLY in GuidedApplyArgs(c) then chosen else chosen[APPLY := "true"];
    AmongTheChosen(c, APPLY);
    AmongTheChosen(c, GUIDED);
    forall i | 0 <= i < |Chosen(c)| ensures VALUE_OPTIONS[i] in values && values[VALUE_OPTIONS[i]] == Chosen(c)[i] {
      assert VALUE_OPTIONS[i] in chosen;
    }
  }
}
