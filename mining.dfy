/**
 * Message-template mining, shared by both generations of the server log: an
 * ordered table of regular expressions, each with the template that replaces
 * a matching message. The first entry that matches wins; each of its named
 * groups is written into the event's properties, in the form its `Storage`
 * gives the captured text.
 */
module Mining {
  import opened Options
  import opened Text
  import opened Events

  /**
   * How a captured text is stored: as the text itself, or as an int if
   * `int.TryParse` takes it, else a float if `float.TryParse` does (the
   * float parser is the oracle `floatParses`), else the text.
   */
  datatype Storage = Raw | Coerced(floatParses: string -> bool)

  function Store(storage: Storage, text: string): (v: PropValue)
    ensures storage.Raw? ==> v == Str(text)
    ensures storage.Coerced? && ParseInt32(text).Some? ==> v == Int(ParseInt32(text).value)
    ensures storage.Coerced? && ParseInt32(text).None? && storage.floatParses(text) ==> v == Float(text)
    ensures storage.Coerced? && ParseInt32(text).None? && !storage.floatParses(text) ==> v == Str(text)
  {
    match storage
    case Raw => Str(text)
    case Coerced(floatParses) =>
      match ParseInt32(text)
      case Some(i) => Int(i)
      case None => if floatParses(text) then Float(text) else Str(text)
  }

  /** An entry of the template table: its regular expression, the expression's named groups in order, and the template. */
  datatype TemplateRegex = TemplateRegex(regex: Matcher, groupNames: seq<string>, template: string)

  /** The first table entry, at `from` or later, whose regular expression matches the message. */
  function FirstMatchingRule(table: seq<TemplateRegex>, message: string, from: nat): (r: Option<nat>)
    ensures r.Some? ==>
      from <= r.value < |table| && table[r.value].regex(message).Some? &&
      forall j :: from <= j < r.value ==> table[j].regex(message).None?
    ensures r.None? ==> forall j :: from <= j < |table| ==> table[j].regex(message).None?
    decreases |table| - from
  {
    if from >= |table| then None
    else if table[from].regex(message).Some? then Some(from)
    else FirstMatchingRule(table, message, from + 1)
  }

  /** `Store` for one storage rule, as a function value. */
  function Storing(storage: Storage): string -> PropValue {
    text => Store(storage, text)
  }

  /** `properties[name] = match.Groups[name].Value`, stored by `store`, for each group name in turn. */
  function WithCaptures(properties: map<string, PropValue>, names: seq<string>, captures: map<string, string>,
                        store: string -> PropValue): map<string, PropValue>
    decreases |names|
  {
    if names == [] then properties
    else
      var last := |names| - 1;
      WithCaptures(properties, names[..last], captures, store)[names[last] := store(Group(captures, names[last]))]
  }

  /** Every group is stored, and every other property is kept. */
  lemma {:induction false} WithCapturesMeaning(properties: map<string, PropValue>, names: seq<string>,
                                               captures: map<string, string>, store: string -> PropValue)
    ensures WithCaptures(properties, names, captures, store).Keys == properties.Keys + set n | n in names
    ensures forall n :: n in names ==> WithCaptures(properties, names, captures, store)[n] == store(Group(captures, n))
    ensures forall n :: n in properties && n !in names ==> WithCaptures(properties, names, captures, store)[n] == properties[n]
    decreases |names|
  {
    if names != [] {
      var last := |names| - 1;
      WithCapturesMeaning(properties, names[..last], captures, store);
      assert forall n :: n in names <==> n in names[..last] || n == names[last];
    }
  }

  /**
   * What `MagicUpTheMessageTemplate` computes: the template of the first
   * matching entry with its groups added to the properties, or the message
   * itself and the properties unchanged.
   */
  function Mine(table: seq<TemplateRegex>, message: string, properties: map<string, PropValue>,
                storage: Storage): (string, map<string, PropValue>)
  {
    match FirstMatchingRule(table, message, 0)
    case None => (message, properties)
    case Some(j) =>
      (table[j].template, WithCaptures(properties, table[j].groupNames, table[j].regex(message).value, Storing(storage)))
  }

  /** The inner loop of `MagicUpTheMessageTemplate`: each group of the match, in turn, stored under its name. */
  method StoreGroups(properties: map<string, PropValue>, names: seq<string>, captures: map<string, string>,
                     store: string -> PropValue)
    returns (mined: map<string, PropValue>)
    ensures mined == WithCaptures(properties, names, captures, store)
  {
    mined := properties;
    var x := 0;
    while x < |names|
      invariant 0 <= x <= |names|
      invariant mined == WithCaptures(properties, names[..x], captures, store)
    {
      assert names[..x + 1][..x] == names[..x];
      mined := mined[names[x] := store(Group(captures, names[x]))];
      x := x + 1;
    }
    assert names[..x] == names;
  }

  /**
   * `MagicUpTheMessageTemplate`: try the entries in order; the first that
   * matches writes each of its groups into the properties and gives its
   * template; with none, the message is the template.
   */
  method MagicUpTheMessageTemplate(table: seq<TemplateRegex>, message: string, properties: map<string, PropValue>,
                                   storage: Storage)
    returns (template: string, mined: map<string, PropValue>)
    ensures (template, mined) == Mine(table, message, properties, storage)
  {
    var j := 0;
    while j < |table|
      invariant 0 <= j <= |table|
      invariant FirstMatchingRule(table, message, 0) == FirstMatchingRule(table, message, j)
    {
      var m := table[j].regex(message);
      if m.Some? {
        assert FirstMatchingRule(table, message, j) == Some(j);
        mined := StoreGroups(properties, table[j].groupNames, m.value, Storing(storage));
        return table[j].template, mined;
      }
      assert FirstMatchingRule(table, message, j) == FirstMatchingRule(table, message, j + 1);
      j := j + 1;
    }
    assert FirstMatchingRule(table, message, j) == None;
    return message, properties;
  }

  /** The first entry at `from` or later that matches is the one found. */
  lemma {:induction false} FirstMatchIs(table: seq<TemplateRegex>, message: string, from: nat, j: nat)
    requires from <= j < |table| && table[j].regex(message).Some?
    requires forall i :: from <= i < j ==> table[i].regex(message).None?
    ensures FirstMatchingRule(table, message, from) == Some(j)
    decreases j - from
  {
    if from < j {
      FirstMatchIs(table, message, from + 1, j);
    }
  }

  /** When no entry at `from` or later matches, none is found. */
  lemma {:induction false} FirstMatchNone(table: seq<TemplateRegex>, message: string, from: nat)
    requires forall i :: from <= i < |table| ==> table[i].regex(message).None?
    ensures FirstMatchingRule(table, message, from) == None
    decreases |table| - from
  {
    if from < |table| {
      FirstMatchNone(table, message, from + 1);
    }
  }

  /** The first matching entry wins: its template, and each of its groups stored. */
  lemma MineFirstMatchWins(table: seq<TemplateRegex>, message: string, properties: map<string, PropValue>,
                           storage: Storage, j: nat)
    requires j < |table| && table[j].regex(message).Some?
    requires forall i :: 0 <= i < j ==> table[i].regex(message).None?
    ensures Mine(table, message, properties, storage).0 == table[j].template
    ensures Mine(table, message, properties, storage).1.Keys == properties.Keys + set n | n in table[j].groupNames
    ensures forall n :: n in table[j].groupNames ==>
      Mine(table, message, properties, storage).1[n] == Store(storage, Group(table[j].regex(message).value, n))
    ensures forall n :: n in properties && n !in table[j].groupNames ==>
      Mine(table, message, properties, storage).1[n] == properties[n]
  {
    FirstMatchIs(table, message, 0, j);
    WithCapturesMeaning(properties, table[j].groupNames, table[j].regex(message).value, Storing(storage));
  }

  /** With no matching entry the template is the message and the properties are left alone. */
  lemma MineNoMatch(table: seq<TemplateRegex>, message: string, properties: map<string, PropValue>, storage: Storage)
    requires forall j :: 0 <= j < |table| ==> table[j].regex(message).None?
    ensures Mine(table, message, properties, storage) == (message, properties)
  {
    FirstMatchNone(table, message, 0);
  }

  /** No group of the table carries one of the `reserved` names. */
  ghost predicate NamesAvoid(table: seq<TemplateRegex>, reserved: set<string>) {
    forall j, name :: 0 <= j < |table| && name in table[j].groupNames ==> name !in reserved
  }

  /** Mining only adds properties; a property no group is named after keeps its value. */
  lemma MineKeeps(table: seq<TemplateRegex>, message: string, properties: map<string, PropValue>,
                  storage: Storage, reserved: set<string>)
    ensures properties.Keys <= Mine(table, message, properties, storage).1.Keys
    ensures NamesAvoid(table, reserved) ==>
      forall n :: n in reserved && n in properties ==> Mine(table, message, properties, storage).1[n] == properties[n]
  {
    var r := FirstMatchingRule(table, message, 0);
    if r.Some? {
      WithCapturesMeaning(properties, table[r.value].groupNames, table[r.value].regex(message).value, Storing(storage));
    }
  }
}
