/**
 The option registry: a circular list of option objects that behaves as a map
 from names, up to dashes and underscores, to settings.
 */
module Options {
  import opened CStrings
  import opened CircularList
  import opened OptionNames

  datatype ArgType = TNULL | BOOL | INT | SIZE | DOUBLE | STRING | LIST | FILE | UNKNOWN

  /** A char pointer: NULL or a C string. */
  datatype Text = NULL | Str(s: string)

  datatype Validator = NoCheck | Check(accepts: (string, Text) -> bool)

  datatype Setting = Setting(argType: ArgType, values: seq<string>, validate: Validator)

  /** A line of a configuration file: a name and the values that were read for it. */
  datatype Assignment = Assignment(name: string, values: seq<string>)

  const NEW_SETTING := Setting(TNULL, [], NoCheck)

  // ----- The registry as a map -----

  ghost function SettingOf(m: map<string, Setting>, name: string): Setting {
    if Fold(name) in m then m[Fold(name)] else NEW_SETTING
  }

  ghost function WithOption(m: map<string, Setting>, name: string): map<string, Setting> {
    m[Fold(name) := SettingOf(m, name)]
  }

  ghost function WithFile(m: map<string, Setting>, file: seq<Assignment>): map<string, Setting> {
    if file == [] then m
    else
      var m', a := WithFile(m, file[..|file| - 1]), file[|file| - 1];
      m'[Fold(a.name) := SettingOf(m', a.name).(values := a.values)]
  }

  datatype SetOutcome = SetOutcome(values: seq<string>, ok: bool)

  /** The values that set_option stores, whether it succeeds: the old ones are gone
      even when the new one is refused. */
  function SetValues(validate: Validator, name: string, value: Text, argType: ArgType): SetOutcome {
    if validate.Check? && !validate.accepts(name, value) then SetOutcome([], false)
    else if argType != BOOL && (value == NULL || value.s == "") then SetOutcome([], true)
    else
      match argType
      case BOOL =>
        if value == NULL || value.s == "on" || value.s == "true" || value.s == "1" then SetOutcome(["on"], true)
        else SetOutcome([], value.s == "off" || value.s == "false" || value.s == "0")
      case LIST => SetOutcome(Tokens(value.s), true)
      case FILE => SetOutcome([], true)
      case TNULL => SetOutcome([], false)
      case UNKNOWN => SetOutcome([], false)
      case _ => SetOutcome([value.s], true)
  }

  /** Whether set_option gets as far as reading the file that value names. */
  predicate ReadsFile(validate: Validator, name: string, value: Text, argType: ArgType) {
    argType == FILE && SetValues(validate, name, value, argType).ok && value != NULL && value.s != ""
  }

  ghost function WithSetting(m: map<string, Setting>, name: string, value: Text, argType: ArgType,
      file: seq<Assignment>)
    : map<string, Setting>
  {
    var validate := SettingOf(m, name).validate;
    var changed := m[Fold(name) := Setting(argType, SetValues(validate, name, value, argType).values, validate)];
    if ReadsFile(validate, name, value, argType) then WithFile(changed, file) else changed
  }

  /** After an option is set, a lookup under any spelling of its name gives the new
      values, and all other options are as before; a file read on the way can change
      the options that it names, and no others. */
  lemma LookupAfterSet(m: map<string, Setting>, name: string, value: Text, argType: ArgType, file: seq<Assignment>,
      other: string)
    requires argType == FILE ==> forall a :: a in file ==> Fold(a.name) != Fold(other)
    ensures var m' := WithSetting(m, name, value, argType, file);
      && (Fold(other) == Fold(name) ==>
            && Fold(other) in m' && m'[Fold(other)].argType == argType
            && m'[Fold(other)].values == SetValues(SettingOf(m, name).validate, name, value, argType).values)
      && (Fold(other) != Fold(name) ==>
            (Fold(other) in m' <==> Fold(other) in m) && SettingOf(m', other) == SettingOf(m, other))
  {
    var validate := SettingOf(m, name).validate;
    var changed := m[Fold(name) := Setting(argType, SetValues(validate, name, value, argType).values, validate)];
    if argType == FILE { FileLeavesOthers(changed, file, other); }
  }

  // ----- What the values of an option mean -----

  /** sb_opt_to_flag: a flag is set if a value is stored, whatever it is. */
  predicate FlagOf(s: Setting) {
    s.values != []
  }

  /** sb_opt_to_string: the first value. */
  function StringOf(s: Setting): Text {
    if s.values == [] then NULL else Str(s.values[0])
  }

  /** The validator, if there is one, accepts the value. */
  predicate Accepted(validate: Validator, name: string, value: Text) {
    validate.Check? ==> validate.accepts(name, value)
  }

  predicate IsOn(value: Text) {
    value in {NULL, Str("on"), Str("true"), Str("1")}
  }

  predicate IsOff(value: Text) {
    value in {Str("off"), Str("false"), Str("0")}
  }

  /** Setting a flag: exactly the words for on, and no word at all, set it; exactly the
      words for off clear it; any other word is refused, and leaves it cleared. */
  lemma FlagAfterSet(m: map<string, Setting>, name: string, value: Text, file: seq<Assignment>)
    ensures var validate := SettingOf(m, name).validate;
      var flag := FlagOf(SettingOf(WithSetting(m, name, value, BOOL, file), name));
      var ok := SetValues(validate, name, value, BOOL).ok;
      && (ok && flag <==> Accepted(validate, name, value) && IsOn(value))
      && (ok && !flag <==> Accepted(validate, name, value) && IsOff(value))
      && (!ok ==> !flag)
  {
  }

  predicate IsPlain(argType: ArgType) {
    argType in {INT, SIZE, DOUBLE, STRING}
  }

  /** Setting a number or a string: the text that was set is read back as it is; no text,
      or an empty one, leaves the option without a value. */
  lemma StringAfterSet(m: map<string, Setting>, name: string, value: Text, argType: ArgType, file: seq<Assignment>)
    requires IsPlain(argType)
    ensures var validate := SettingOf(m, name).validate;
      var text := StringOf(SettingOf(WithSetting(m, name, value, argType, file), name));
      && (SetValues(validate, name, value, argType).ok <==> Accepted(validate, name, value))
      && text == if Accepted(validate, name, value) && value != Str("") then value else NULL
  {
  }

  /** Setting a list: the pieces between the commas. Setting a file name stores no value. */
  lemma ListAfterSet(m: map<string, Setting>, name: string, value: Text, argType: ArgType, file: seq<Assignment>)
    requires argType == LIST || (argType == FILE && forall a :: a in file ==> Fold(a.name) != Fold(name))
    ensures var validate := SettingOf(m, name).validate;
      var values := SettingOf(WithSetting(m, name, value, argType, file), name).values;
      && (SetValues(validate, name, value, argType).ok <==> Accepted(validate, name, value))
      && values == if argType == LIST && Accepted(validate, name, value) && value != NULL then Tokens(value.s) else []
  {
    hide Tokens;
    TokensOfNothing();
    if argType == FILE {
      var validate := SettingOf(m, name).validate;
      var changed := m[Fold(name) := Setting(argType, SetValues(validate, name, value, argType).values, validate)];
      FileLeavesOthers(changed, file, name);
    }
  }

  /** Other types are refused, unless there is nothing to store. */
  lemma UnknownTypeRefused(validate: Validator, name: string, value: Text, argType: ArgType)
    requires argType in {TNULL, UNKNOWN}
    ensures SetValues(validate, name, value, argType).values == []
    ensures SetValues(validate, name, value, argType).ok
      <==> Accepted(validate, name, value) && value in {NULL, Str("")}
  {
  }

  /** sb_opt_copy: sets an option to the first value of another, and to its type. */
  ghost function WithCopy(m: map<string, Setting>, to: string, from: string, file: seq<Assignment>)
      : map<string, Setting>
  {
    if Fold(from) !in m then m
    else WithSetting(m, to, StringOf(m[Fold(from)]), m[Fold(from)].argType, file)
  }

  /** A flag that is copied is set in the copy if it was set with "on", and also if it was
      cleared: then there is no value to pass on, which counts as on. So a copy of a flag
      that was set or cleared by set_option is right if and only if the flag is set. */
  lemma CopiedFlagExactly(m: map<string, Setting>, to: string, from: string, file: seq<Assignment>)
    requires Fold(from) in m && m[Fold(from)].argType == BOOL && m[Fold(from)].values in {[], ["on"]}
    requires Fold(to) != Fold(from)
    requires Accepted(SettingOf(m, to).validate, to, StringOf(m[Fold(from)]))
    ensures var m' := WithCopy(m, to, from, file);
      && FlagOf(SettingOf(m', to))
      && (FlagOf(SettingOf(m', to)) == FlagOf(SettingOf(m', from)) <==> FlagOf(m[Fold(from)]))
  {
  }

  /** Of a list, only the first value is copied, so the copy is right if and only if there
      is no second one; a number or a string is copied as it is. */
  lemma CopiedValuesExactly(m: map<string, Setting>, to: string, from: string, file: seq<Assignment>)
    requires Fold(from) in m && (m[Fold(from)].argType == LIST || IsPlain(m[Fold(from)].argType))
    requires forall v :: v in m[Fold(from)].values ==> v != "" && (m[Fold(from)].argType == LIST ==> ',' !in v)
    requires Fold(to) != Fold(from)
    requires Accepted(SettingOf(m, to).validate, to, StringOf(m[Fold(from)]))
    ensures var values, copied := m[Fold(from)].values, SettingOf(WithCopy(m, to, from, file), to).values;
      && copied == values[..if values == [] then 0 else 1]
      && (copied == values <==> |values| <= 1)
  {
    hide Tokens;
    var values := m[Fold(from)].values;
    if values != [] {
      assert values[0] in values;
      assert [] + [values[0]] == values[..1];
      if m[Fold(from)].argType == LIST {
        TokensOfNothing();
        TokensOfPiece("", values[0]);
        assert "" + values[0] == values[0];
      }
    }
  }

  lemma {:induction false} FileLeavesOthers(m: map<string, Setting>, file: seq<Assignment>, other: string)
    requires forall a :: a in file ==> Fold(a.name) != Fold(other)
    ensures Fold(other) in WithFile(m, file) <==> Fold(other) in m
    ensures SettingOf(WithFile(m, file), other) == SettingOf(m, other)
  {
    if file != [] {
      assert file[|file| - 1] in file;
      FileLeavesOthers(m, file[..|file| - 1], other);
    }
  }

  /** An option that a file names has the values of its last line for it. */
  lemma {:induction false} FileSetsLast(m: map<string, Setting>, file: seq<Assignment>, k: nat)
    requires k < |file| && forall j :: k < j < |file| ==> Fold(file[j].name) != Fold(file[k].name)
    ensures SettingOf(WithFile(m, file), file[k].name).values == file[k].values
  {
    if k < |file| - 1 { FileSetsLast(m, file[..|file| - 1], k); }
  }

  // ----- Sets of options -----

  datatype Arg = Arg(name: string, value: Text, argType: ArgType, validate: Validator)

  /** The map after the first n entries of a set; files[i] is for entry i. */
  ghost function WithArgs(m: map<string, Setting>, args: seq<Arg>, files: seq<seq<Assignment>>, n: nat)
      : map<string, Setting>
    requires n <= |args| <= |files|
  {
    if n == 0 then m
    else
      var m', a := WithArgs(m, args, files, n - 1), args[n - 1];
      Validated(WithSetting(m', a.name, a.value, a.argType, files[n - 1]), a.name, args[0].validate)
  }

  ghost function Validated(m: map<string, Setting>, name: string, validate: Validator): map<string, Setting> {
    m[Fold(name) := SettingOf(m, name).(validate := validate)]
  }

  /** Every option of a set ends up with the validator of the set's first entry, not
      with its own. */
  lemma {:induction false} FirstValidatorForAll(m: map<string, Setting>, args: seq<Arg>, files: seq<seq<Assignment>>,
      n: nat, i: nat)
    requires i < n <= |args| <= |files|
    ensures Fold(args[i].name) in WithArgs(m, args, files, n)
    ensures WithArgs(m, args, files, n)[Fold(args[i].name)].validate == args[0].validate
  {
    if i < n - 1 {
      FirstValidatorForAll(m, args, files, n - 1, i);
      var m', a := WithArgs(m, args, files, n - 1), args[n - 1];
      SetKeepsValidator(m', a.name, a.value, a.argType, files[n - 1], Fold(args[i].name));
    }
  }

  /** Registering a set does to each option what set_option does with its default, as long
      as no later entry has its name, and no entry names a file. */
  lemma {:induction false} RegisteredAsSet(m: map<string, Setting>, args: seq<Arg>, files: seq<seq<Assignment>>,
      n: nat, i: nat)
    requires i < n <= |args| <= |files|
    requires forall j :: i < j < n ==> Fold(args[j].name) != Fold(args[i].name)
    requires forall j :: i <= j < n ==> args[j].argType != FILE
    ensures var a := args[i];
      var stored := SettingOf(WithSetting(WithArgs(m, args, files, i), a.name, a.value, a.argType, files[i]), a.name);
      SettingOf(WithArgs(m, args, files, n), a.name) == stored.(validate := args[0].validate)
  {
    if i < n - 1 {
      RegisteredAsSet(m, args, files, n - 1, i);
      var m', a := WithArgs(m, args, files, n - 1), args[n - 1];
      LookupAfterSet(m', a.name, a.value, a.argType, files[n - 1], args[i].name);
      hide WithSetting;
    }
  }

  lemma SetKeepsValidator(m: map<string, Setting>, name: string, value: Text, argType: ArgType,
      file: seq<Assignment>, key: string)
    requires key in m
    ensures var m' := WithSetting(m, name, value, argType, file); key in m' && m'[key].validate == m[key].validate
  {
    var validate := SettingOf(m, name).validate;
    var changed := m[Fold(name) := Setting(argType, SetValues(validate, name, value, argType).values, validate)];
    FileKeepsValidator(changed, file, key);
  }

  lemma {:induction false} FileKeepsValidator(m: map<string, Setting>, file: seq<Assignment>, key: string)
    requires key in m
    ensures key in WithFile(m, file) && WithFile(m, file)[key].validate == m[key].validate
  {
    if file != [] { FileKeepsValidator(m, file[..|file| - 1], key); }
  }

  // ----- Options in order, and the map they stand for -----

  datatype Named = Named(name: string, setting: Setting)

  ghost function MapOf(all: seq<Named>): map<string, Setting> {
    if all == [] then map[] else MapOf(all[..|all| - 1])[all[|all| - 1].name := all[|all| - 1].setting]
  }

  ghost predicate DifferentNames(all: seq<Named>) {
    forall i, j :: 0 <= i < j < |all| ==> all[i].name != all[j].name
  }

  lemma {:induction false} MapOfAt(all: seq<Named>, k: nat)
    requires DifferentNames(all) && k < |all|
    ensures all[k].name in MapOf(all) && MapOf(all)[all[k].name] == all[k].setting
  {
    if k < |all| - 1 { MapOfAt(all[..|all| - 1], k); }
  }

  lemma {:induction false} MapOfNames(all: seq<Named>, name: string)
    requires forall i :: 0 <= i < |all| ==> all[i].name != name
    ensures name !in MapOf(all)
  {
    if all != [] { MapOfNames(all[..|all| - 1], name); }
  }

  lemma MapMissing(all: seq<Named>, name: string)
    requires DifferentNames(all) && name !in MapOf(all)
    ensures forall i :: 0 <= i < |all| ==> all[i].name != name
  {
    forall i | 0 <= i < |all| ensures all[i].name != name { MapOfAt(all, i); }
  }

  lemma MapOfAppend(all: seq<Named>, n: Named)
    ensures MapOf(all + [n]) == MapOf(all)[n.name := n.setting]
  {
    assert (all + [n])[..|all|] == all;
  }

  lemma {:induction false} MapOfUpdate(all: seq<Named>, k: nat, setting: Setting)
    requires DifferentNames(all) && k < |all|
    ensures MapOf(all[k := Named(all[k].name, setting)]) == MapOf(all)[all[k].name := setting]
  {
    var n := |all| - 1;
    var changed := all[k := Named(all[k].name, setting)];
    if k < n {
      assert changed[..n] == all[..n][k := Named(all[k].name, setting)];
      MapOfUpdate(all[..n], k, setting);
      assert all[k].name != all[n].name;
    } else {
      assert changed[..n] == all[..n];
    }
  }

  lemma WithoutAppend(init: seq<Named>, last: Named, k: nat)
    requires k < |init|
    ensures Without(init + [last], k) == Without(init, k) + [last]
  {
    assert (init + [last])[..k] == init[..k];
    assert (init + [last])[k + 1..] == init[k + 1..] + [last];
  }

  lemma {:induction false} MapOfRemove(all: seq<Named>, k: nat)
    requires DifferentNames(all) && k < |all|
    ensures MapOf(Without(all, k)) == MapOf(all) - {all[k].name}
  {
    var n := |all| - 1;
    var init, last := all[..n], all[n];
    assert all == init + [last];
    MapOfAppend(init, last);
    if k < n {
      MapOfRemove(init, k);
      WithoutAppend(init, last, k);
      MapOfAppend(Without(init, k), last);
      UpdateWithout(MapOf(init), all[k].name, last.name, last.setting);
    } else {
      assert Without(all, k) == init;
      MapOfNames(init, last.name);
    }
    hide MapOf;
  }

  lemma UpdateWithout(m: map<string, Setting>, x: string, y: string, v: Setting)
    requires x != y
    ensures (m - {x})[y := v] == m[y := v] - {x}
  {
  }

  // ----- The registry in memory -----

  class Opt {
    const name: string
    var argType: ArgType
    var values: seq<string>
    var validate: Validator

    function Value(): Setting
      reads this
    {
      Setting(argType, values, validate)
    }

    function AsNamed(): Named
      reads this
    {
      Named(name, Value())
    }

    constructor (n: string)
      ensures name == n && Value() == NEW_SETTING
    {
      name := n;
      argType := TNULL;
      values := [];
      validate := NoCheck;
    }

    method ToFlag() returns (flag: bool)
      ensures flag <==> FlagOf(Value())
    {
      flag := values != [];
    }

    method ToString() returns (text: Text)
      ensures text == StringOf(Value())
    {
      if values != [] {
        return Str(values[0]);
      }
      return NULL;
    }
  }

  ghost function AllOf(opts: seq<Opt>): (all: seq<Named>)
    reads opts
    ensures |all| == |opts| && forall i :: 0 <= i < |opts| ==> all[i] == opts[i].AsNamed()
  {
    if opts == [] then [] else AllOf(opts[..|opts| - 1]) + [opts[|opts| - 1].AsNamed()]
  }

  /** Nothing was taken away from the front. */
  ghost predicate Grown<T>(before: seq<T>, after: seq<T>) {
    |before| <= |after| && forall i :: 0 <= i < |before| ==> before[i] == after[i]
  }

  class Registry {
    const options: Item<Opt>
    ghost var items: seq<Item<Opt>>
    ghost var opts: seq<Opt>
    ghost var repr: set<object>

    ghost predicate Valid()
      reads this, repr
    {
      && this in repr && options in repr
      && |opts| == |items|
      && (forall i :: 0 <= i < |items| ==> items[i] in repr && opts[i] in repr)
      && IsList(options, items)
      && (forall i :: 0 <= i < |items| ==> items[i].entry == In(opts[i]))
      && (forall i :: 0 <= i < |opts| ==> CString(opts[i].name) && Fold(opts[i].name) == opts[i].name)
      && (forall i, j :: 0 <= i < j < |opts| ==> opts[i].name != opts[j].name)
    }

    ghost function All(): (all: seq<Named>)
      requires Valid()
      reads this, repr
      ensures |all| == |opts| && DifferentNames(all)
      ensures forall i :: 0 <= i < |opts| ==> all[i] == opts[i].AsNamed()
    {
      AllOf(opts)
    }

    ghost function Contents(): map<string, Setting>
      requires Valid()
      reads this, repr
    {
      MapOf(All())
    }

    constructor ()
      ensures Valid() && Contents() == map[]
      ensures fresh(repr)
    {
      options := new Item<Opt>(Head);
      items, opts := [], [];
      repr := {this, options};
    }

    lemma Listed(k: nat)
      requires Valid() && k < |opts|
      ensures opts[k] in repr && opts[k].name in Contents() && Contents()[opts[k].name] == opts[k].Value()
    {
      MapOfAt(All(), k);
    }

    /** pos is the item that the option is embedded in, the k-th of the list. */
    method FindOption(name: string) returns (opt: Opt?, pos: Item<Opt>, ghost k: nat)
      requires Valid() && CString(name)
      ensures opt == null <==> Fold(name) !in Contents()
      ensures opt != null ==> k < |opts| && opts[k] == opt && opt.name == Fold(name) && pos == items[k]
    {
      k := 0;
      opt := null;
      Ends(options, items);
      pos := options.next_p;
      while pos != options
        invariant k <= |items| && pos == (if k < |items| then items[k] else options)
        invariant forall i :: 0 <= i < k ==> opts[i].name != Fold(name)
        decreases |items| - k
      {
        var o := pos.entry.container;
        var r := OptNameCmp(o.name, name);
        if r == 0 {
          MapOfAt(All(), k);
          return o, pos, k;
        }
        Following(options, items, k);
        pos := pos.next_p;
        k := k + 1;
      }
      if k < |items| { Following(options, items, k); }
      MapOfNames(All(), Fold(name));
    }

    method AddOption(name: string) returns (opt: Opt, ghost k: nat)
      requires Valid() && CString(name)
      modifies repr
      ensures Valid() && k < |opts| && opts[k] == opt && opt.name == Fold(name)
      ensures Contents() == WithOption(old(Contents()), name)
      ensures Fold(name) in Contents() && Contents()[Fold(name)] == opt.Value() && opt in repr
      ensures Grown(old(items), items) && Grown(old(opts), opts)
      ensures fresh(repr - old(repr))
    {
      hide MapOf, AllOf, IsList, Fold, CString, DifferentNames;
      ghost var all := All();
      var found, pos;
      found, pos, k := FindOption(name);
      if found != null {
        MapOfAt(all, k);
        assert Contents() == WithOption(Contents(), name);
        return found, k;
      }
      FoldTwice(name);
      MapMissing(all, Fold(name));
      opt, k := NewOption(Fold(name));
    }

    /** Links a new option object at the end of the list. */
    method LinkOption(name: string) returns (opt: Opt)
      requires Valid() && CString(name) && Fold(name) == name
      requires forall i :: 0 <= i < |opts| ==> opts[i].name != name
      modifies repr
      ensures Valid() && fresh(opt) && opt.name == name && opt.Value() == NEW_SETTING
      ensures opts == old(opts) + [opt] && Grown(old(items), items)
      ensures forall i :: 0 <= i < |old(opts)| ==> opts[i].AsNamed() == old(opts[i].AsNamed())
      ensures fresh(repr - old(repr))
    {
      hide IsList, Fold, CString;
      opt := new Opt(name);
      var item := new Item<Opt>(In(opt));
      Ends(options, items);
      AddTail(item, options, items);
      items, opts := items + [item], opts + [opt];
      repr := repr + {item, opt};
    }

    method NewOption(name: string) returns (opt: Opt, ghost k: nat)
      requires Valid() && CString(name) && Fold(name) == name
      requires forall i :: 0 <= i < |opts| ==> opts[i].name != name
      modifies repr
      ensures Valid() && Contents() == old(Contents())[name := NEW_SETTING]
      ensures k < |opts| && opts[k] == opt && fresh(opt) && opt.name == name && opt.Value() == NEW_SETTING
      ensures Grown(old(items), items) && Grown(old(opts), opts)
      ensures fresh(repr - old(repr))
    {
      hide MapOf, AllOf, IsList, Fold, CString, Valid, DifferentNames;
      ghost var all := All();
      k := |opts|;
      opt := LinkOption(name);
      assert All() == all + [Named(name, NEW_SETTING)];
      MapOfAppend(all, Named(name, NEW_SETTING));
    }

    /** Sets the fields of one option. */
    method Change(opt: Opt, ghost k: nat, argType: ArgType, values: seq<string>, validate: Validator)
      requires Valid() && k < |opts| && opts[k] == opt
      modifies opt
      ensures Valid() && repr == old(repr) && items == old(items) && opts == old(opts)
      ensures Contents() == old(Contents())[opt.name := Setting(argType, values, validate)]
      ensures opt.Value() == Setting(argType, values, validate)
    {
      ghost var all := All();
      opt.argType := argType;
      opt.values := values;
      opt.validate := validate;
      assert Valid();
      forall i | 0 <= i < |opts| && i != k ensures opts[i] != opt {
        assert all[i].name != all[k].name by { if i < k { assert DifferentNames(all); } }
      }
      assert All() == all[k := Named(all[k].name, Setting(argType, values, validate))];
      MapOfUpdate(all, k, Setting(argType, values, validate));
    }

    /** file: what reading the file named by value yields, for an option of that type. */
    method SetOption(name: string, value: Text, argType: ArgType, file: seq<Assignment>)
        returns (ok: bool, opt: Opt, ghost k: nat)
      requires Valid() && CString(name) && forall a :: a in file ==> CString(a.name)
      modifies repr
      ensures Valid() && Contents() == WithSetting(old(Contents()), name, value, argType, file)
      ensures ok == SetValues(SettingOf(old(Contents()), name).validate, name, value, argType).ok
      ensures k < |opts| && opts[k] == opt && opt.name == Fold(name)
      ensures Grown(old(items), items) && Grown(old(opts), opts)
      ensures fresh(repr - old(repr))
    {
      hide MapOf, Tokens, WithFile, Fold, CString, IsList, AllOf, Valid, All, Contents;
      ghost var m := Contents();
      opt, k := AddOption(name);
      assert opt.Value() == Contents()[Fold(name)] == SettingOf(m, name);
      Change(opt, k, argType, [], opt.validate);
      assert Contents() == m[Fold(name) := Setting(argType, [], SettingOf(m, name).validate)];
      if opt.validate.Check? && !opt.validate.accepts(name, value) {
        return false, opt, k;
      }
      if argType != BOOL && (value == NULL || value.s == "") {
        return true, opt, k;
      }
      ghost var validate := SettingOf(m, name).validate;
      assert SetValues(validate, name, value, argType) == SetValues(NoCheck, opt.name, value, argType);
      ghost var changed := Setting(argType, SetValues(validate, name, value, argType).values, validate);
      assert Contents()[opt.name := changed] == m[Fold(name) := changed];
      ok := Store(opt, k, value, argType, file);
    }

    /** Stores the values that a value of the given type stands for. */
    method Store(opt: Opt, ghost k: nat, value: Text, argType: ArgType, file: seq<Assignment>) returns (ok: bool)
      requires Valid() && k < |opts| && opts[k] == opt && opt in repr
      requires opt.values == [] && opt.argType == argType
      requires opt.name in Contents() && Contents()[opt.name] == opt.Value()
      requires forall a :: a in file ==> CString(a.name)
      requires argType == BOOL || (value != NULL && value.s != "")
      modifies repr
      ensures Valid() && k < |opts| && opts[k] == opt
      ensures ok == SetValues(NoCheck, opt.name, value, argType).ok
      ensures var changed := old(Contents())[opt.name :=
                Setting(argType, SetValues(NoCheck, opt.name, value, argType).values, old(opt.validate))];
              Contents() == if argType == FILE then WithFile(changed, file) else changed
      ensures Grown(old(items), items) && Grown(old(opts), opts)
      ensures fresh(repr - old(repr))
    {
      hide MapOf, Tokens, WithFile, Fold, CString, IsList, AllOf, Valid, All, Contents;
      ok := true;
      ghost var m := Contents();
      ghost var values := SetValues(NoCheck, opt.name, value, argType).values;
      ghost var changed := m[opt.name := Setting(argType, values, opt.validate)];
      assert m == m[opt.name := Setting(argType, [], opt.validate)];
      assert forall v: string :: [] + [v] == [v];
      match argType {
        case BOOL =>
          if value == NULL || value.s == "on" || value.s == "true" || value.s == "1" {
            AddValue(opt, k, "on");
          } else if value.s != "off" && value.s != "false" && value.s != "0" {
            ok := false;
          }
        case LIST =>
          var values := Split(value.s);
          Change(opt, k, argType, values, opt.validate);
        case FILE =>
          assert changed == m;
          ReadConfigFile(file);
        case TNULL => ok := false;
        case UNKNOWN => ok := false;
        case _ => AddValue(opt, k, value.s);
      }
    }

    method AddValue(opt: Opt, ghost k: nat, value: string)
      requires Valid() && k < |opts| && opts[k] == opt && opt in repr
      modifies opt
      ensures Valid() && repr == old(repr) && items == old(items) && opts == old(opts)
      ensures Contents() == old(Contents())[opt.name := old(opt.Value()).(values := old(opt.values) + [value])]
    {
      Change(opt, k, opt.argType, opt.values + [value], opt.validate);
    }

    method ReadConfigFile(file: seq<Assignment>)
      requires Valid() && forall a :: a in file ==> CString(a.name)
      modifies repr
      ensures Valid() && Contents() == WithFile(old(Contents()), file)
      ensures Grown(old(items), items) && Grown(old(opts), opts)
      ensures fresh(repr - old(repr))
    {
      hide MapOf, Tokens, Fold, CString, IsList, AllOf, Valid, All, Contents;
      assert file[..0] == [];
      for n := 0 to |file|
        invariant Valid() && Contents() == WithFile(old(Contents()), file[..n])
        invariant Grown(old(items), items) && Grown(old(opts), opts)
        invariant fresh(repr - old(repr))
      {
        ghost var m := Contents();
        assert file[..n + 1][..n] == file[..n];
        assert file[n] in file;
        var opt, k := AddOption(file[n].name);
        assert opt.Value() == Contents()[Fold(file[n].name)] == SettingOf(m, file[n].name);
        Change(opt, k, opt.argType, file[n].values, opt.validate);
      }
      assert file[..|file|] == file;
    }

    method RegisterArgSet(args: seq<Arg>, files: seq<seq<Assignment>>) returns (rc: int, ghost n: nat)
      requires Valid() && |args| <= |files|
      requires forall i :: 0 <= i < |args| ==> CString(args[i].name)
      requires forall i, a :: 0 <= i < |files| && a in files[i] ==> CString(a.name)
      modifies repr
      ensures Valid() && n <= |args| && fresh(repr - old(repr))
      ensures rc == 0 ==> n == |args| && Contents() == WithArgs(old(Contents()), args, files, n)
      ensures rc != 0 ==> rc == 1 && n < |args|
      ensures rc != 0 ==> var m := WithArgs(old(Contents()), args, files, n);
        Contents() == WithSetting(m, args[n].name, args[n].value, args[n].argType, files[n])
    {
      hide MapOf, Tokens, WithFile, Fold, CString, IsList, AllOf, Valid, All, Contents, WithSetting, SetValues;
      n := 0;
      for i := 0 to |args|
        invariant Valid() && n == i && fresh(repr - old(repr))
        invariant Contents() == WithArgs(old(Contents()), args, files, i)
      {
        var ok, opt, k := SetOption(args[i].name, args[i].value, args[i].argType, files[i]);
        if !ok {
          return 1, n;
        }
        Listed(k);
        Change(opt, k, opt.argType, opt.values, args[0].validate);
        n := n + 1;
      }
      rc := 0;
    }

    method GetFlag(name: string) returns (flag: bool)
      requires Valid() && CString(name)
      ensures flag <==> Fold(name) in Contents() && FlagOf(Contents()[Fold(name)])
    {
      hide MapOf, Fold, CString, IsList, AllOf, Valid, All, Contents;
      var opt, pos, k := FindOption(name);
      if opt == null {
        return false;
      }
      Listed(k);
      flag := opt.ToFlag();
    }

    method GetString(name: string) returns (text: Text)
      requires Valid() && CString(name)
      ensures text == if Fold(name) in Contents() then StringOf(Contents()[Fold(name)]) else NULL
    {
      hide MapOf, Fold, CString, IsList, AllOf, Valid, All, Contents;
      var opt, pos, k := FindOption(name);
      if opt == null {
        return NULL;
      }
      Listed(k);
      text := opt.ToString();
    }

    /** Whatever set_option answers about the copy, the result only tells whether there was
        something to copy. */
    method Copy(to: string, from: string, file: seq<Assignment>) returns (ok: bool)
      requires Valid() && CString(to) && CString(from) && forall a :: a in file ==> CString(a.name)
      modifies repr
      ensures Valid() && Contents() == WithCopy(old(Contents()), to, from, file)
      ensures ok <==> Fold(from) in old(Contents())
      ensures fresh(repr - old(repr))
    {
      hide MapOf, Tokens, WithFile, WithSetting, Fold, CString, IsList, AllOf, Valid, All, Contents, SetValues;
      var opt, pos, k := FindOption(from);
      if opt == null {
        return false;
      }
      Listed(k);
      var text := opt.ToString();
      var _, _, _ := SetOption(to, text, opt.argType, file);
      return true;
    }

    method RemoveOption(name: string) returns (rc: int)
      requires Valid() && CString(name)
      modifies repr
      ensures Valid() && repr == old(repr)
      ensures rc == if Fold(name) in old(Contents()) then 0 else 1
      ensures Contents() == old(Contents()) - {Fold(name)}
    {
      hide MapOf, AllOf, IsList, Fold, CString, DifferentNames;
      ghost var all := All();
      var opt, pos, k := FindOption(name);
      if opt == null {
        return 1;
      }
      Unlink(pos, k);
      rc := 0;
    }

    method Unlink(pos: Item<Opt>, ghost k: nat)
      requires Valid() && k < |opts| && pos == items[k]
      modifies repr
      ensures Valid() && repr == old(repr) && Contents() == old(Contents() - {opts[k].name})
    {
      hide MapOf, AllOf, IsList, Fold, CString, DifferentNames, Without;
      ghost var all := All();
      Following(options, items, k);
      Delete(pos, options, items, k);
      items, opts := Without(items, k), Without(opts, k);
      assert Valid();
      assert All() == Without(all, k);
      MapOfRemove(all, k);
    }
  }
}
