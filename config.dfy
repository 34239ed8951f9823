/**
 * The xApp's start-up configuration: a fixed table of ten items, each
 * settable from an environment variable or a command-line option and
 * otherwise falling back to its default. The table also yields the
 * getopt option string and the long-option table.
 */
module Configs {
  import opened Wrappers
  import opened CLib

  /** The items, in the order of their enumeration values. */
  datatype ItemName =
    XAPP_NAME | XAPP_ID | HOST | PORT | LOG_LEVEL | ADMIN_HOST | ADMIN_PORT | RMR_NOWAIT | KPM_INTERVAL_INDEX | INFLUXDB_URL

  /** The enumeration value of an item name. */
  function Ord(n: ItemName): int
  {
    match n
    case XAPP_NAME => 1
    case XAPP_ID => 2
    case HOST => 3
    case PORT => 4
    case LOG_LEVEL => 5
    case ADMIN_HOST => 6
    case ADMIN_PORT => 7
    case RMR_NOWAIT => 8
    case KPM_INTERVAL_INDEX => 9
    case INFLUXDB_URL => 10
  }

  /** The value that ends the enumeration, one past the last item. */
  const MAX_NAME: int := 11

  /** The item with enumeration value `k`, if there is one. */
  function NameOf(k: int): (r: Option<ItemName>)
    ensures r.Some? ==> Ord(r.value) == k
  {
    if k == 1 then Some(XAPP_NAME)
    else if k == 2 then Some(XAPP_ID)
    else if k == 3 then Some(HOST)
    else if k == 4 then Some(PORT)
    else if k == 5 then Some(LOG_LEVEL)
    else if k == 6 then Some(ADMIN_HOST)
    else if k == 7 then Some(ADMIN_PORT)
    else if k == 8 then Some(RMR_NOWAIT)
    else if k == 9 then Some(KPM_INTERVAL_INDEX)
    else if k == 10 then Some(INFLUXDB_URL)
    else None
  }

  /** The values run without a gap from 1 to the one before `MAX_NAME`, each naming exactly one item. */
  lemma NamesContiguous(k: int, n: ItemName)
    ensures NameOf(k).Some? <==> 1 <= k < MAX_NAME
    ensures NameOf(Ord(n)) == Some(n)
    ensures 1 <= Ord(n) < MAX_NAME
  {
  }

  /** The names in the order a `std::map` keyed by them visits them. */
  const ORDER: seq<ItemName> :=
    [XAPP_NAME, XAPP_ID, HOST, PORT, LOG_LEVEL, ADMIN_HOST, ADMIN_PORT, RMR_NOWAIT, KPM_INTERVAL_INDEX, INFLUXDB_URL]

  /** The visiting order is by enumeration value, so it holds every item once. */
  lemma OrderByValue()
    ensures |ORDER| == MAX_NAME - 1
    ensures forall i | 0 <= i < |ORDER| :: Ord(ORDER[i]) == i + 1
    ensures forall n: ItemName :: n in ORDER
  {
    forall n: ItemName
      ensures n in ORDER
    {
      assert ORDER[Ord(n) - 1] == n;
    }
  }

  datatype ItemType = BOOL | STRING | INTEGER

  /** The enumeration value of an item type. */
  function TypeCode(t: ItemType): int
  {
    match t
    case BOOL => 1
    case STRING => 2
    case INTEGER => 3
  }

  /**
   * The value union. `Null` is what its default constructor leaves: a
   * null string pointer.
   */
  datatype ItemValue = Null | B(b: bool) | S(s: string) | I(i: int)

  /**
   * One item. `long` and `env` are names that may be missing; `default` is
   * a pointer to a value that may be null.
   */
  datatype Item = Item(kind: ItemType, short: char, long: Option<string>, env: Option<string>,
                       required: bool, default: Option<ItemValue>, valueSet: bool, value: ItemValue)

  /** A new item: nothing has been set, and its value is the union's default. */
  function NewItem(kind: ItemType, short: char, long: Option<string>, env: Option<string>,
                   required: bool, default: Option<ItemValue>): Item
  {
    Item(kind, short, long, env, required, default, false, Null)
  }

  type Items = map<ItemName, Item>

  /** The item the configuration starts with under each name. */
  function DefaultItem(n: ItemName): Item
  {
    match n
    case XAPP_NAME => NewItem(STRING, 'n', Some("xapp-name"), Some("XAPP_NAME"), true, None)
    case XAPP_ID => NewItem(STRING, 'x', Some("xapp-id"), Some("XAPP_ID"), true, None)
    case HOST => NewItem(STRING, 'H', Some("host"), Some("HOST"), false, Some(S("0.0.0.0")))
    case PORT => NewItem(INTEGER, 'p', Some("port"), Some("PORT"), false, Some(I(4560)))
    case LOG_LEVEL => NewItem(STRING, 'l', Some("log-level"), Some("LOG_LEVEL"), false, Some(S("warn")))
    case ADMIN_HOST => NewItem(STRING, 'A', Some("admin-host"), Some("ADMIN_HOST"), false, Some(S("0.0.0.0")))
    case ADMIN_PORT => NewItem(INTEGER, 'a', Some("admin-port"), Some("ADMIN_PORT"), false, Some(I(8000)))
    case RMR_NOWAIT => NewItem(BOOL, 'R', Some("rmr-nowait"), Some("RMR_NOWAIT"), false, Some(B(false)))
    case KPM_INTERVAL_INDEX => NewItem(INTEGER, 'K', Some("kpm-interval-index"), Some("KPM_INTERVAL_INDEX"), false, Some(I(18)))
    case INFLUXDB_URL => NewItem(STRING, 'I', Some("influxdb-url"), Some("INFLUXDB_URL"), false, Some(S("")))
  }

  /** The table the configuration starts from. */
  const DEFAULT_ITEMS: Items := map n: ItemName | n in ORDER :: DefaultItem(n)

  /** `v` is a value of the union member that `kind` selects. */
  predicate Matches(kind: ItemType, v: ItemValue)
  {
    match kind
    case BOOL => v.B?
    case STRING => v.S?
    case INTEGER => v.I?
  }

  /** An item holds (and defaults to) only values of its own type, or the union's default. */
  predicate Fits(it: Item)
  {
    (it.value.Null? || Matches(it.kind, it.value)) && (it.default.Some? ==> Matches(it.kind, it.default.value))
  }

  /** Every name has an item. */
  predicate Complete(items: Items)
  {
    forall n: ItemName :: n in items
  }

  predicate WellFormed(items: Items)
  {
    forall n: ItemName :: n in items && Fits(items[n])
  }

  /** No two items share a short option character, and none is the ':' of the option string. */
  predicate DistinctShorts(items: Items)
  {
    (forall n, m | n in items && m in items && n != m :: items[n].short != items[m].short)
    && (forall n | n in items :: items[n].short != ':')
  }

  /** The two tables agree on everything but what has been set. */
  predicate SameShape(a: Items, b: Items)
  {
    a.Keys == b.Keys &&
    forall n | n in a :: a[n].(valueSet := false, value := Null) == b[n].(valueSet := false, value := Null)
  }

  /** The starting table holds every name's default item. */
  lemma DefaultItemsAre()
    ensures forall n: ItemName :: n in DEFAULT_ITEMS && DEFAULT_ITEMS[n] == DefaultItem(n)
  {
    OrderByValue();
  }

  /** The name whose default item has short option `c`, if any. */
  function DefaultShortName(c: char): Option<ItemName>
  {
    if c == 'n' then Some(XAPP_NAME)
    else if c == 'x' then Some(XAPP_ID)
    else if c == 'H' then Some(HOST)
    else if c == 'p' then Some(PORT)
    else if c == 'l' then Some(LOG_LEVEL)
    else if c == 'A' then Some(ADMIN_HOST)
    else if c == 'a' then Some(ADMIN_PORT)
    else if c == 'R' then Some(RMR_NOWAIT)
    else if c == 'K' then Some(KPM_INTERVAL_INDEX)
    else if c == 'I' then Some(INFLUXDB_URL)
    else None
  }

  /** The starting table is complete and well typed, every item is unset, and the short options are distinct. */
  lemma DefaultItemsWellFormed()
    ensures WellFormed(DEFAULT_ITEMS) && DistinctShorts(DEFAULT_ITEMS)
    ensures forall n: ItemName :: !DEFAULT_ITEMS[n].valueSet && DEFAULT_ITEMS[n].value == Null
    ensures forall n: ItemName :: DEFAULT_ITEMS[n].required <==> n == XAPP_NAME || n == XAPP_ID
    ensures forall n: ItemName :: DEFAULT_ITEMS[n].default.None? <==> n == XAPP_NAME || n == XAPP_ID
  {
    DefaultItemsAre();
    forall n: ItemName
      ensures Fits(DEFAULT_ITEMS[n]) && !DEFAULT_ITEMS[n].valueSet && DEFAULT_ITEMS[n].value == Null
      ensures DEFAULT_ITEMS[n].required <==> n == XAPP_NAME || n == XAPP_ID
      ensures DEFAULT_ITEMS[n].default.None? <==> n == XAPP_NAME || n == XAPP_ID
      ensures DEFAULT_ITEMS[n].short != ':'
    {
      DefaultItemFacts(n);
    }
    forall n, m | n != m
      ensures DEFAULT_ITEMS[n].short != DEFAULT_ITEMS[m].short
    {
      DefaultItemFacts(n);
      DefaultItemFacts(m);
    }
  }

  lemma DefaultItemFacts(n: ItemName)
    ensures Fits(DefaultItem(n)) && !DefaultItem(n).valueSet && DefaultItem(n).value == Null
    ensures DefaultItem(n).required <==> n == XAPP_NAME || n == XAPP_ID
    ensures DefaultItem(n).default.None? <==> n == XAPP_NAME || n == XAPP_ID
    ensures DefaultShortName(DefaultItem(n).short) == Some(n) && DefaultItem(n).short != ':'
  {
  }

  // ---------------------------------------------------------------- lookup

  /** The value `operator[]` points to: the set value if there is one, else the default, which may be null. */
  function Lookup(items: Items, n: ItemName): Option<ItemValue>
    requires n in items
  {
    if items[n].valueSet then Some(items[n].value) else items[n].default
  }

  /** An unset starting table has no xApp name or id to look up, and reads the other STRING items' defaults. */
  lemma DefaultStringLookups()
    ensures Lookup(DEFAULT_ITEMS, XAPP_NAME) == None && Lookup(DEFAULT_ITEMS, XAPP_ID) == None
    ensures Lookup(DEFAULT_ITEMS, HOST) == Some(S("0.0.0.0")) && Lookup(DEFAULT_ITEMS, ADMIN_HOST) == Some(S("0.0.0.0"))
    ensures Lookup(DEFAULT_ITEMS, LOG_LEVEL) == Some(S("warn")) && Lookup(DEFAULT_ITEMS, INFLUXDB_URL) == Some(S(""))
  {
    DefaultItemsAre();
  }

  /** An unset starting table reads the INTEGER and BOOL items' defaults. */
  lemma DefaultNumberLookups()
    ensures Lookup(DEFAULT_ITEMS, PORT) == Some(I(4560)) && Lookup(DEFAULT_ITEMS, ADMIN_PORT) == Some(I(8000))
    ensures Lookup(DEFAULT_ITEMS, RMR_NOWAIT) == Some(B(false)) && Lookup(DEFAULT_ITEMS, KPM_INTERVAL_INDEX) == Some(I(18))
  {
    DefaultItemsAre();
  }

  // ---------------------------------------------------------------- validate

  /** Every required item has been set or has a default. */
  predicate Validates(items: Items)
  {
    forall n | n in items :: items[n].required ==> items[n].valueSet || items[n].default.Some?
  }

  /** A table validates exactly when every required item can be looked up. */
  lemma ValidatesIffRequiredFound(items: Items)
    ensures Validates(items) <==> forall n | n in items && items[n].required :: Lookup(items, n).Some?
  {
  }

  /** A table shaped like the starting one validates exactly when the xApp's name and id have been set. */
  lemma {:induction false} DefaultShapeValidatesIff(items: Items)
    requires SameShape(items, DEFAULT_ITEMS)
    ensures Validates(items) <==> items[XAPP_NAME].valueSet && items[XAPP_ID].valueSet
  {
    DefaultItemsWellFormed();
    assert items[XAPP_NAME].(valueSet := false, value := Null) == DEFAULT_ITEMS[XAPP_NAME];
    assert items[XAPP_ID].(valueSet := false, value := Null) == DEFAULT_ITEMS[XAPP_ID];
    if items[XAPP_NAME].valueSet && items[XAPP_ID].valueSet {
      forall n | n in items && items[n].required
        ensures items[n].valueSet || items[n].default.Some?
      {
        assert items[n].(valueSet := false, value := Null) == DEFAULT_ITEMS[n];
      }
    }
  }

  // ---------------------------------------------------------------- option tables

  /** What one item adds to the option string: its character, then ':' when it takes an argument. */
  function OptEntry(it: Item): string
  {
    [it.short] + (if it.kind != BOOL then ":" else "")
  }

  /** The getopt option string for the items `names`, in that order. */
  function OptString(items: Items, names: seq<ItemName>): string
    requires forall n | n in names :: n in items
  {
    if names == [] then "" else OptString(items, names[..|names| - 1]) + OptEntry(items[names[|names| - 1]])
  }

  /** The first position of `c` in `s`, as `strchr` finds it. */
  function IndexOf(s: string, c: char): (r: Option<nat>)
    ensures r.None? <==> c !in s
    ensures r.Some? ==> r.value < |s| && s[r.value] == c && c !in s[..r.value]
  {
    if s == [] then None
    else if s[0] == c then Some(0)
    else match IndexOf(s[1..], c)
      case None => None
      case Some(k) => (assert s[..k + 1] == [s[0]] + s[1..][..k]; Some(k + 1))
  }

  /**
   * How getopt reads option `c` from an option string: not an option
   * (None), or an option that takes an argument exactly when a ':' follows it.
   */
  function TakesArg(optstr: string, c: char): Option<bool>
  {
    match IndexOf(optstr, c)
    case None => None
    case Some(i) => Some(i + 1 < |optstr| && optstr[i + 1] == ':')
  }

  /** A character that is neither ':' nor any listed item's short option does not occur in their option string. */
  lemma {:induction false} OptStringOmits(items: Items, names: seq<ItemName>, c: char)
    requires forall n | n in names :: n in items
    requires c != ':' && forall n | n in names :: items[n].short != c
    ensures c !in OptString(items, names)
  {
    if names != [] {
      OptStringOmits(items, names[..|names| - 1], c);
    }
  }

  lemma {:induction false} IndexOfAppend(s: string, t: string, c: char)
    ensures c in s ==> IndexOf(s + t, c) == IndexOf(s, c)
    ensures c !in s && c in t ==> IndexOf(s + t, c) == Some(|s| + IndexOf(t, c).value)
  {
    if s != [] {
      assert (s + t)[1..] == s[1..] + t;
      assert forall x | x in s[1..] :: x in s;
      IndexOfAppend(s[1..], t, c);
    } else {
      assert s + t == t;
    }
  }

  /**
   * The option string round-trips: getopt reads every listed item's short
   * option back as taking an argument exactly when the item is not BOOL.
   */
  lemma {:induction false} OptStringDecodes(items: Items, names: seq<ItemName>)
    requires forall n | n in names :: n in items
    requires DistinctShorts(items)
    ensures forall n | n in names :: TakesArg(OptString(items, names), items[n].short) == Some(items[n].kind != BOOL)
  {
    if names != [] {
      var init, last := names[..|names| - 1], names[|names| - 1];
      var s, e := OptString(items, init), OptEntry(items[last]);
      assert OptString(items, names) == s + e;
      OptStringDecodes(items, init);
      forall n | n in names
        ensures TakesArg(s + e, items[n].short) == Some(items[n].kind != BOOL)
      {
        var c := items[n].short;
        if n in init {
          IndexOfAppend(s, e, c);
          var i := IndexOf(s, c).value;
          if i + 1 == |s| {
            assert (s + e)[i + 1] == e[0] == items[last].short;
          } else {
            assert (s + e)[i + 1] == s[i + 1];
          }
        } else {
          assert n == last;
          OptStringOmits(items, init, c) by {
            forall m | m in init
              ensures items[m].short != c
            {
              assert m != n;
            }
          }
          assert e[0] == c;
          IndexOfAppend(s, e, c);
        }
      }
    }
  }

  /** Any other character except ':' is not an option at all. */
  lemma OptStringRejectsOthers(items: Items, names: seq<ItemName>, c: char)
    requires forall n | n in names :: n in items
    requires c != ':' && forall n | n in names :: items[n].short != c
    ensures TakesArg(OptString(items, names), c) == None
  {
    OptStringOmits(items, names, c);
  }

  /** The option string fits the buffer allocated for it: two bytes per item and then some, with room for the NUL. */
  lemma {:induction false} OptStringFits(items: Items, names: seq<ItemName>)
    requires forall n | n in names :: n in items
    ensures |OptString(items, names)| + 1 <= (|names| + 2 + 1) * 2
    ensures |OptString(items, names)| <= 2 * |names|
  {
    if names != [] {
      OptStringFits(items, names[..|names| - 1]);
    }
  }

  /** A `struct option` entry: the long name, `has_arg` (0 none, 2 optional) and the character returned for it. */
  datatype LongOption = LongOption(name: string, hasArg: int, val: char)

  const NO_ARGUMENT: int := 0
  const OPTIONAL_ARGUMENT: int := 2

  /** The entry ending the table: "--help" returns 'h'. */
  const HELP_OPTION: LongOption := LongOption("help", NO_ARGUMENT, 'h')

  /** The long options for the items `names` that have a long name, in that order. */
  function LongOptions(items: Items, names: seq<ItemName>): seq<LongOption>
    requires forall n | n in names :: n in items
  {
    if names == [] then []
    else
      var it := items[names[|names| - 1]];
      LongOptions(items, names[..|names| - 1]) +
        if it.long.None? then [] else [LongEntry(it)]
  }

  /** The entry an item with a long name contributes. */
  function LongEntry(it: Item): LongOption
    requires it.long.Some?
  {
    LongOption(it.long.value, if it.kind == BOOL then NO_ARGUMENT else OPTIONAL_ARGUMENT, it.short)
  }

  /**
   * There is at most one entry per item, so the entries, the "help" entry
   * and the zeroed terminator fit the array allocated for two more than
   * the items.
   */
  lemma {:induction false} LongOptionsFit(items: Items, names: seq<ItemName>)
    requires forall n | n in names :: n in items
    ensures |LongOptions(items, names)| <= |names|
    ensures |LongOptions(items, names) + [HELP_OPTION]| + 1 <= |names| + 2
  {
    if names != [] {
      LongOptionsFit(items, names[..|names| - 1]);
    }
  }

  /**
   * Every listed item with a long name has an entry carrying that name and
   * its short character, with no argument for BOOL and an optional one
   * otherwise.
   */
  lemma {:induction false} LongOptionsCover(items: Items, names: seq<ItemName>)
    requires forall n | n in names :: n in items
    ensures forall n | n in names && items[n].long.Some? :: LongEntry(items[n]) in LongOptions(items, names)
  {
    if names != [] {
      var init := names[..|names| - 1];
      LongOptionsCover(items, init);
      assert forall n | n in names :: n in init || n == names[|names| - 1];
    }
  }

  /** Every entry comes from a listed item with that long name and short character. */
  lemma {:induction false} LongOptionsSound(items: Items, names: seq<ItemName>)
    requires forall n | n in names :: n in items
    ensures forall o | o in LongOptions(items, names) ::
      exists n | n in names :: items[n].long == Some(o.name) && o.val == items[n].short
  {
    if names != [] {
      var init, last := names[..|names| - 1], names[|names| - 1];
      LongOptionsSound(items, init);
      forall o | o in LongOptions(items, names)
        ensures exists n | n in names :: items[n].long == Some(o.name) && o.val == items[n].short
      {
        if o in LongOptions(items, init) {
          var n :| n in init && items[n].long == Some(o.name) && o.val == items[n].short;
          assert n in names;
        } else {
          assert items[last].long == Some(o.name) && o.val == items[last].short;
        }
      }
    }
  }

  /**
   * The constructor's loop: the option string and the long-option table
   * for every item, in map order, the latter ending with "help".
   */
  method BuildOptions(items: Items) returns (optstr: string, longs: seq<LongOption>)
    requires Complete(items)
    ensures optstr == OptString(items, ORDER)
    ensures longs == LongOptions(items, ORDER) + [HELP_OPTION]
  {
    optstr, longs := "", [];
    var i := 0;
    while i < |ORDER|
      invariant 0 <= i <= |ORDER|
      invariant optstr == OptString(items, ORDER[..i]) && longs == LongOptions(items, ORDER[..i])
    {
      var it := items[ORDER[i]];
      assert ORDER[..i + 1][..i] == ORDER[..i];
      optstr := optstr + [it.short];
      if it.kind != BOOL {
        optstr := optstr + ":";
      }
      i := i + 1;
      if it.long.None? {
        continue;
      }
      longs := longs + [LongOption(it.long.value, if it.kind == BOOL then NO_ARGUMENT else OPTIONAL_ARGUMENT, it.short)];
    }
    assert ORDER[..|ORDER|] == ORDER;
    longs := longs + [HELP_OPTION];
  }

  lemma OptStringStep(items: Items, names: seq<ItemName>, k: nat)
    requires k < |names| && forall n | n in names :: n in items
    ensures OptString(items, names[..k + 1]) == OptString(items, names[..k]) + OptEntry(items[names[k]])
  {
    assert names[..k + 1][..k] == names[..k];
  }

  lemma DefaultShortNameInverse(c: char)
    ensures DefaultShortName(c).Some? ==> DefaultItem(DefaultShortName(c).value).short == c
  {
  }

  /**
   * getopt reads the starting table's option string as the ten short
   * options, each taking an argument except 'R'; any other character but
   * ':' is not an option.
   */
  lemma DefaultOptionsRead(c: char)
    ensures DefaultShortName(c).Some? ==> TakesArg(OptString(DEFAULT_ITEMS, ORDER), c) == Some(c != 'R')
    ensures DefaultShortName(c).None? && c != ':' ==> TakesArg(OptString(DEFAULT_ITEMS, ORDER), c) == None
  {
    if DefaultShortName(c).Some? {
      DefaultShortRead(c);
    } else if c != ':' {
      DefaultOtherNotRead(c);
    }
  }

  /** A short name of the starting table is an option; only 'R' (the bool "nowait") takes no argument. */
  lemma DefaultShortRead(c: char)
    requires DefaultShortName(c).Some?
    ensures TakesArg(OptString(DEFAULT_ITEMS, ORDER), c) == Some(c != 'R')
  {
    var n := DefaultShortName(c).value;
    DefaultItemsAre();
    DefaultItemsWellFormed();
    OrderByValue();
    OptStringDecodes(DEFAULT_ITEMS, ORDER);
    DefaultShortNameInverse(c);
    assert DEFAULT_ITEMS[n].short == c;
    assert DEFAULT_ITEMS[n].kind == BOOL <==> c == 'R';
  }

  /** Any other character but ':' is not an option of the starting table. */
  lemma DefaultOtherNotRead(c: char)
    requires DefaultShortName(c).None? && c != ':'
    ensures TakesArg(OptString(DEFAULT_ITEMS, ORDER), c) == None
  {
    OrderByValue();
    forall n | n in ORDER
      ensures DEFAULT_ITEMS[n].short != c
    {
      DefaultItemFacts(n);
    }
    OptStringRejectsOthers(DEFAULT_ITEMS, ORDER, c);
  }

  /** "-h" is not in the option string: only "--help" returns 'h'. */
  lemma DefaultHelpNotShort()
    ensures TakesArg(OptString(DEFAULT_ITEMS, ORDER), 'h') == None
  {
    DefaultOptionsRead('h');
  }

  // ---------------------------------------------------------------- environment

  /** Reading the union's `b` member: the null pointer of the default union reads as false. */
  function BoolOf(v: ItemValue): bool
    requires v.Null? || v.B?
  {
    if v.B? then v.b else false
  }

  /**
   * One item after the environment is read: when its variable is set, a
   * BOOL item flips, whatever the variable holds, a STRING item takes the
   * variable's text and an INTEGER item its atoi; and the item is marked set.
   */
  function EnvItem(it: Item, env: map<string, string>): Item
    requires Fits(it)
  {
    if it.env.None? || it.env.value !in env then it
    else
      var v := env[it.env.value];
      match it.kind
      case BOOL => it.(value := B(!BoolOf(it.value)), valueSet := true)
      case STRING => it.(value := S(v), valueSet := true)
      case INTEGER => it.(value := I(Atoi(v)), valueSet := true)
  }

  /** The table after the environment is read: each item independently. */
  function EnvOverlay(items: Items, env: map<string, string>): (r: Items)
    requires WellFormed(items)
    ensures WellFormed(r)
  {
    map n | n in items :: EnvItem(items[n], env)
  }

  /**
   * Reading the environment keeps a table well formed and shaped as it
   * was; it sets exactly the items whose variable is present, and leaves
   * the others as they were.
   */
  lemma EnvOverlaySets(items: Items, env: map<string, string>)
    requires WellFormed(items)
    ensures WellFormed(EnvOverlay(items, env)) && SameShape(EnvOverlay(items, env), items)
    ensures forall n: ItemName :: EnvOverlay(items, env)[n].valueSet <==>
      items[n].valueSet || (items[n].env.Some? && items[n].env.value in env)
    ensures forall n: ItemName | items[n].env.None? || items[n].env.value !in env :: EnvOverlay(items, env)[n] == items[n]
  {
  }

  /** A decimal number in the variable of an INTEGER item is read back as that number. */
  lemma EnvIntegerRoundTrip(items: Items, env: map<string, string>, n: ItemName, k: nat)
    requires WellFormed(items) && items[n].kind == INTEGER && items[n].env.Some?
    requires env.Keys == {items[n].env.value} && env[items[n].env.value] == DecimalString(k)
    ensures Lookup(EnvOverlay(items, env), n) == Some(I(k))
  {
    AtoiOfDecimalString(k);
  }

  /**
   * Reading the same environment twice is the same as reading it once,
   * except that a BOOL item whose variable is set flips back.
   */
  lemma {:induction false} EnvOverlayTwice(items: Items, env: map<string, string>, n: ItemName)
    requires WellFormed(items)
    ensures EnvOverlay(EnvOverlay(items, env), env)[n] ==
      if items[n].kind == BOOL && items[n].env.Some? && items[n].env.value in env
      then items[n].(value := B(BoolOf(items[n].value)), valueSet := true)
      else EnvOverlay(items, env)[n]
  {
    EnvOverlaySets(items, env);
  }

  /** With the starting table, a set RMR_NOWAIT turns the option on whatever it says, "0" and "false" included. */
  lemma DefaultNowaitAnyValue(env: map<string, string>)
    requires "RMR_NOWAIT" in env
    ensures (DefaultItemsWellFormed(); Lookup(EnvOverlay(DEFAULT_ITEMS, env), RMR_NOWAIT) == Some(B(true)))
  {
    DefaultItemsWellFormed();
  }

  /** After reading the environment into the starting table, it validates exactly when XAPP_NAME and XAPP_ID are set. */
  lemma DefaultEnvValidatesIff(env: map<string, string>)
    ensures (DefaultItemsWellFormed(); Validates(EnvOverlay(DEFAULT_ITEMS, env)) <==> "XAPP_NAME" in env && "XAPP_ID" in env)
  {
    DefaultItemsWellFormed();
    EnvOverlaySets(DEFAULT_ITEMS, env);
    DefaultShapeValidatesIff(EnvOverlay(DEFAULT_ITEMS, env));
  }

  // ---------------------------------------------------------------- command line

  /** A command-line option as getopt returns it: the option character and its argument, which may be null. */
  type Opt = (char, Option<string>)

  /** The first item among `names` whose short option is `c`. */
  function Find(items: Items, names: seq<ItemName>, c: char): (r: Option<ItemName>)
    requires forall n | n in names :: n in items
    ensures r.Some? ==> r.value in names && items[r.value].short == c
    ensures r.None? ==> forall n | n in names :: items[n].short != c
  {
    if names == [] then None
    else if items[names[0]].short == c then Some(names[0])
    else Find(items, names[1..], c)
  }

  /** Setting values leaves the search for a short option unchanged. */
  lemma {:induction false} FindStable(a: Items, b: Items, names: seq<ItemName>, c: char)
    requires SameShape(a, b) && forall n | n in names :: n in a
    ensures Find(a, names, c) == Find(b, names, c)
  {
    if names != [] {
      assert a[names[0]].(valueSet := false, value := Null) == b[names[0]].(valueSet := false, value := Null);
      FindStable(a, b, names[1..], c);
    }
  }

  /**
   * One item after a matched option: a BOOL item becomes true, a STRING
   * item takes the argument (a null one included) and an INTEGER item its
   * atoi; and the item is marked set.
   */
  function ArgItem(it: Item, arg: Option<string>): Item
    requires it.kind == INTEGER ==> arg.Some?
  {
    match it.kind
    case BOOL => it.(value := B(true), valueSet := true)
    case STRING => it.(value := if arg.Some? then S(arg.value) else Null, valueSet := true)
    case INTEGER => it.(value := I(Atoi(arg.value)), valueSet := true)
  }

  /**
   * Every option that reaches an INTEGER item carries an argument: atoi
   * of a null pointer is undefined.
   */
  predicate ArgsPresent(items: Items, opts: seq<Opt>)
    requires Complete(items)
    decreases |opts|
  {
    opts == [] || opts[0].0 == 'h' || Find(items, ORDER, opts[0].0).None? ||
    (var n := Find(items, ORDER, opts[0].0).value;
     (items[n].kind == INTEGER ==> opts[0].1.Some?) &&
     ArgsPresent(items[n := ArgItem(items[n], opts[0].1)], opts[1..]))
  }

  /**
   * `parseArgv` on the options `opts`: false at the first 'h' or at the
   * first option no item has, with the options before it applied; true
   * with all of them applied otherwise.
   */
  function Argv(items: Items, opts: seq<Opt>): (r: (bool, Items))
    requires Complete(items) && ArgsPresent(items, opts)
    ensures Complete(r.1)
    decreases |opts|
  {
    if opts == [] then (true, items)
    else if opts[0].0 == 'h' then (false, items)
    else match Find(items, ORDER, opts[0].0)
      case None => (false, items)
      case Some(n) => Argv(items[n := ArgItem(items[n], opts[0].1)], opts[1..])
  }

  /** Parsing succeeds exactly when no option is 'h' and every option is some item's. */
  lemma {:induction false} ArgvOkIff(items: Items, opts: seq<Opt>)
    requires Complete(items) && ArgsPresent(items, opts)
    ensures Argv(items, opts).0 <==> forall i | 0 <= i < |opts| :: opts[i].0 != 'h' && Find(items, ORDER, opts[i].0).Some?
  {
    if opts != [] && opts[0].0 != 'h' && Find(items, ORDER, opts[0].0).Some? {
      var n, next := ArgStep(items, opts);
      ArgvOkIff(next, opts[1..]);
    }
  }

  /** The item a matched first option applies to, and the table after it is applied. */
  lemma {:induction false} ArgStep(items: Items, opts: seq<Opt>) returns (n: ItemName, next: Items)
    requires Complete(items) && ArgsPresent(items, opts)
    requires opts != [] && opts[0].0 != 'h' && Find(items, ORDER, opts[0].0).Some?
    ensures n == Find(items, ORDER, opts[0].0).value
    ensures next == items[n := ArgItem(items[n], opts[0].1)]
    ensures Complete(next) && SameShape(next, items) && ArgsPresent(next, opts[1..])
    ensures Argv(items, opts) == Argv(next, opts[1..])
    ensures forall c :: Find(next, ORDER, c) == Find(items, ORDER, c)
    ensures forall i | 1 <= i < |opts| :: opts[i] == opts[1..][i - 1]
  {
    n := Find(items, ORDER, opts[0].0).value;
    next := items[n := ArgItem(items[n], opts[0].1)];
    assert SameShape(next, items);
    forall c
      ensures Find(next, ORDER, c) == Find(items, ORDER, c)
    {
      FindStable(next, items, ORDER, c);
    }
  }

  /**
   * Parsing keeps the table's shape; an item it finds set stays set, and
   * a BOOL item it finds true stays true.
   */
  lemma {:induction false} ArgvKeepsShape(items: Items, opts: seq<Opt>)
    requires Complete(items) && ArgsPresent(items, opts)
    ensures Complete(Argv(items, opts).1) && SameShape(Argv(items, opts).1, items)
    ensures forall n: ItemName | items[n].valueSet :: Argv(items, opts).1[n].valueSet
    ensures forall n: ItemName | items[n].kind == BOOL && items[n].value == B(true) :: Argv(items, opts).1[n].value == B(true)
    decreases |opts|
  {
    if opts != [] && opts[0].0 != 'h' && Find(items, ORDER, opts[0].0).Some? {
      var n, next := ArgStep(items, opts);
      ArgvKeepsShape(next, opts[1..]);
      var r := Argv(items, opts).1;
      assert forall m | m in r :: r[m].(valueSet := false, value := Null) == next[m].(valueSet := false, value := Null);
    }
  }

  /** An item that no option names is left as it was. */
  lemma {:induction false} ArgvLeavesUnnamed(items: Items, opts: seq<Opt>, n: ItemName)
    requires Complete(items) && ArgsPresent(items, opts)
    requires forall i | 0 <= i < |opts| :: Find(items, ORDER, opts[i].0) != Some(n)
    ensures Argv(items, opts).1[n] == items[n]
    decreases |opts|
  {
    if opts != [] && opts[0].0 != 'h' && Find(items, ORDER, opts[0].0).Some? {
      var m, next := ArgStep(items, opts);
      ArgvLeavesUnnamed(next, opts[1..], n);
    }
  }

  /**
   * When parsing succeeds, every item some option names is set, and a
   * named BOOL item is true.
   */
  lemma {:induction false} ArgvSetsNamed(items: Items, opts: seq<Opt>)
    requires Complete(items) && ArgsPresent(items, opts)
    ensures Argv(items, opts).0 ==> forall i | 0 <= i < |opts| && Find(items, ORDER, opts[i].0).Some? ::
      var n := Find(items, ORDER, opts[i].0).value;
      Argv(items, opts).1[n].valueSet && (items[n].kind == BOOL ==> Argv(items, opts).1[n].value == B(true))
    decreases |opts|
  {
    if opts != [] && opts[0].0 != 'h' && Find(items, ORDER, opts[0].0).Some? {
      var n, next := ArgStep(items, opts);
      ArgvSetsNamed(next, opts[1..]);
      ArgvKeepsShape(next, opts[1..]);
      assert next[n].valueSet && (items[n].kind == BOOL ==> next[n].value == B(true));
      assert forall m | m in next :: next[m].kind == items[m].kind by {
        forall m | m in next ensures next[m].kind == items[m].kind {
          assert next[m].(valueSet := false, value := Null) == items[m].(valueSet := false, value := Null);
        }
      }
    }
  }

  /** A decimal number given as an INTEGER item's option is read back as that number. */
  lemma ArgIntegerRoundTrip(items: Items, n: ItemName, k: nat)
    requires Complete(items) && items[n].kind == INTEGER && items[n].short != 'h' && Find(items, ORDER, items[n].short) == Some(n)
    ensures ArgsPresent(items, [(items[n].short, Some(DecimalString(k)))])
    ensures Argv(items, [(items[n].short, Some(DecimalString(k)))]) == (true, items[n := items[n].(valueSet := true, value := I(k))])
  {
    AtoiOfDecimalString(k);
    var opts := [(items[n].short, Some(DecimalString(k)))];
    assert opts[1..] == [];
  }

  // ---------------------------------------------------------------- the configuration object

  class Config {
    var items: Items
    const optstr: string
    const longOptions: seq<LongOption>

    predicate Valid()
      reads this
    {
      WellFormed(items)
    }

    /** The starting table, and the option tables built from it. */
    constructor ()
      ensures Valid() && DistinctShorts(items)
      ensures items == DEFAULT_ITEMS
      ensures optstr == OptString(DEFAULT_ITEMS, ORDER)
      ensures longOptions == LongOptions(DEFAULT_ITEMS, ORDER) + [HELP_OPTION]
    {
      DefaultItemsWellFormed();
      items := DEFAULT_ITEMS;
      var o, l := BuildOptions(DEFAULT_ITEMS);
      optstr, longOptions := o, l;
    }

    /** `operator[]`: the set value, else the default, which may be null. */
    function Get(name: ItemName): (r: Option<ItemValue>)
      requires Valid()
      reads this
      ensures r == Lookup(items, name)
    {
      if items[name].valueSet then Some(items[name].value) else items[name].default
    }

    /** Reads every item's variable from `env`; with three item types there is no type to fail on. */
    method ParseEnv(env: map<string, string>) returns (ok: bool)
      requires Valid()
      modifies this`items
      ensures Valid() && ok
      ensures items == EnvOverlay(old(items), env)
    {
      OrderByValue();
      var table := items;
      var i := 0;
      while i < |ORDER|
        invariant 0 <= i <= |ORDER|
        invariant forall n: ItemName :: n in table
        invariant forall j | 0 <= j < i :: table[ORDER[j]] == EnvItem(items[ORDER[j]], env)
        invariant forall j | i <= j < |ORDER| :: table[ORDER[j]] == items[ORDER[j]]
      {
        var n := ORDER[i];
        assert Ord(n) == i + 1;
        ghost var before := table;
        var it := table[n];
        assert it == items[n] && Fits(it);
        if it.env.Some? && it.env.value in env {
          var v := env[it.env.value];
          var value := match it.kind
            case BOOL => B(!BoolOf(it.value))
            case STRING => S(v)
            case INTEGER => I(Atoi(v));
          table := table[n := it.(value := value, valueSet := true)];
        }
        assert table[n] == EnvItem(items[n], env);
        assert forall j | 0 <= j < |ORDER| && j != i :: table[ORDER[j]] == before[ORDER[j]];
        i := i + 1;
      }
      forall n: ItemName
        ensures table[n] == EnvItem(items[n], env)
      {
        assert ORDER[Ord(n) - 1] == n;
      }
      assert table == EnvOverlay(items, env);
      items := table;
      return true;
    }

    /** The first item whose short option is `c`, as the inner loop of `parseArgv` finds it. */
    method FindShort(c: char) returns (r: Option<ItemName>)
      requires Valid()
      ensures r == Find(items, ORDER, c)
    {
      var i := 0;
      while i < |ORDER|
        invariant 0 <= i <= |ORDER|
        invariant Find(items, ORDER, c) == Find(items, ORDER[i..], c)
      {
        if items[ORDER[i]].short == c {
          return Some(ORDER[i]);
        }
        assert ORDER[i..][1..] == ORDER[i + 1..];
        i := i + 1;
      }
      return None;
    }

    /** Applies the options in order, stopping with false at 'h' or at an option no item has. */
    method ParseArgv(opts: seq<Opt>) returns (ok: bool)
      requires Valid() && ArgsPresent(items, opts)
      modifies this`items
      ensures Valid()
      ensures (ok, items) == Argv(old(items), opts)
    {
      var i := 0;
      while i < |opts|
        invariant 0 <= i <= |opts| && Valid()
        invariant ArgsPresent(items, opts[i..])
        invariant Argv(old(items), opts) == Argv(items, opts[i..])
      {
        var (c, arg) := opts[i];
        if c == 'h' {
          return false;
        }
        var found := FindShort(c);
        if found.None? {
          return false;
        }
        var n := found.value;
        assert opts[i..][1..] == opts[i + 1..];
        items := items[n := ArgItem(items[n], arg)];
        i := i + 1;
      }
      return true;
    }

    /** False at the first required item that is neither set nor defaulted. */
    method Validate() returns (ok: bool)
      requires Valid()
      ensures ok <==> Validates(items)
    {
      OrderByValue();
      var i := 0;
      while i < |ORDER|
        invariant 0 <= i <= |ORDER|
        invariant forall j | 0 <= j < i :: items[ORDER[j]].required ==> items[ORDER[j]].valueSet || items[ORDER[j]].default.Some?
      {
        var it := items[ORDER[i]];
        if it.required && !(it.valueSet || it.default.Some?) {
          return false;
        }
        i := i + 1;
      }
      forall n | n in items
        ensures items[n].required ==> items[n].valueSet || items[n].default.Some?
      {
        assert ORDER[Ord(n) - 1] == n;
      }
      return true;
    }
  }
}
