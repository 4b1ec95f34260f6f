/**
  The record-assembling part of the test-record script. For every attribute
  of the form it decides whether the new record gets a key, which key and
  which value; lookups are resolved by a query whose outcome is written later,
  when its promise settles.

  The host runtime is not modelled: attribute metadata arrives as `Attribute`
  values, and every random draw, the clock reading and the outcome of the
  lookup query arrive per attribute as a `Draws` value.
*/
module TestRecord {
  import opened Wrappers
  import opened BindingKey

  // ---------------------------------------------------------------------------
  // Data model

  /** A value stored in the record: a JavaScript string, number or boolean. */
  datatype Value = Text(s: string) | Number(n: int) | Flag(b: bool)

  /** One entry of an option-set attribute's option list. */
  datatype OptionItem = OptionItem(value: int, text: string)

  /**
    A control bound to an attribute; `entityTypes` is None when the control
    has no `getEntityTypes` function.
  */
  datatype Control = Control(entityTypes: Option<seq<string>>)

  /**
    The metadata the script reads from one attribute: its logical name, its
    required level and type tag (both strings, compared literally), its option
    list (None for null) and its controls.
  */
  datatype Attribute = Attribute(
    name: string,
    requiredLevel: string,
    attributeType: string,
    options: Option<seq<OptionItem>>,
    controls: seq<Control>)

  /** How a lookup query ends: rejected, or with the ids of the retrieved records. */
  datatype QueryOutcome = Failed | Retrieved(ids: seq<string>)

  /**
    The values the script draws from its environment for one attribute: the
    base-36 suffix of a random string, a random integer in [0, 1000), a random
    index into the option list, the current time as an ISO string, and the
    outcome of the lookup query (with the id the script picks from each record).
  */
  datatype Draws = Draws(
    suffix: string,
    number: int,
    optionIndex: nat,
    timestamp: string,
    query: QueryOutcome)

  /** A lookup query in flight: which attribute it fills, which entity set it reads, and how it ends. */
  datatype Pending = Pending(attrName: string, entity: string, outcome: QueryOutcome)

  /** What the loop body does with one attribute. */
  datatype Action = Skip | Write(key: string, value: Value) | Await(lookup: Pending)

  const Required: string := "required"
  const MemoText: string := "Generated test memo."
  const TextPrefix: string := "Test_"

  /** The type tags the script fills with a random integer. */
  predicate IsNumericType(t: string)
  {
    t == "integer" || t == "decimal" || t == "double" || t == "money"
  }

  /** The type tags the script handles other than `lookup`. */
  predicate IsPlainType(t: string)
  {
    t == "string" || t == "memo" || t == "datetime" || t == "boolean" || IsNumericType(t) || t == "optionset"
  }

  /** Whether the attribute's option list is present and not empty. */
  predicate HasOptions(a: Attribute)
  {
    a.options.Some? && |a.options.value| > 0
  }

  /**
    The ranges the random sources guarantee: `Math.floor(Math.random() * 1000)`
    is in [0, 1000), and the drawn option index is below the list's length.
  */
  predicate ValidDraws(a: Attribute, d: Draws)
  {
    && 0 <= d.number < 1000
    && (HasOptions(a) ==> d.optionIndex < |a.options.value|)
  }

  predicate AllValidDraws(attrs: seq<Attribute>, draws: seq<Draws>)
  {
    && |draws| == |attrs|
    && forall i :: 0 <= i < |attrs| ==> ValidDraws(attrs[i], draws[i])
  }

  /** The entity types of the first control, or none when it cannot report them. */
  function LookupEntityTypes(a: Attribute): seq<string>
  {
    if |a.controls| > 0 && a.controls[0].entityTypes.Some? then a.controls[0].entityTypes.value else []
  }

  /** The owner lookup and lookups that may point at users or teams are never filled. */
  predicate IsOwnerLookup(a: Attribute)
  {
    var types := LookupEntityTypes(a);
    a.name == "ownerid" || "systemuser" in types || "owner" in types
  }

  /** Attribute names as the platform issues them: lower-case letters, digits and `_`. */
  predicate IsLogicalName(n: string)
  {
    forall i :: 0 <= i < |n| ==> 'a' <= n[i] <= 'z' || '0' <= n[i] <= '9' || n[i] == '_'
  }

  /** The attributes of one form: distinct logical names. */
  predicate WellNamed(attrs: seq<Attribute>)
  {
    && (forall i :: 0 <= i < |attrs| ==> IsLogicalName(attrs[i].name))
    && (forall i, j :: 0 <= i < j < |attrs| ==> attrs[i].name != attrs[j].name)
  }

  // ---------------------------------------------------------------------------
  // The fill rule for one attribute

  /**
    The decision the loop body takes for one attribute. Its contract is the
    fill rule: only required attributes act; every plain type writes under the
    attribute's own name a value of the promised shape; a lookup is queried
    exactly when it is not owner-related and knows its entity types, and never
    writes directly.
  */
  function Plan(a: Attribute, d: Draws): (act: Action)
    requires ValidDraws(a, d)
    // only required attributes act
    ensures act != Skip ==> a.requiredLevel == Required
    // direct writes: own name, plain type, value of the promised shape
    ensures act.Write? ==> act.key == a.name && IsPlainType(a.attributeType)
    ensures act.Write? && a.attributeType == "string" ==>
      act.value.Text? && TextPrefix <= act.value.s
    ensures act.Write? && a.attributeType == "memo" ==> act.value == Text(MemoText)
    ensures act.Write? && a.attributeType == "datetime" ==> act.value == Text(d.timestamp)
    ensures act.Write? && a.attributeType == "boolean" ==> act.value == Flag(true)
    ensures act.Write? && IsNumericType(a.attributeType) ==> act.value.Number? && 0 <= act.value.n <= 999
    ensures act.Write? && a.attributeType == "optionset" ==>
      HasOptions(a) && exists i :: 0 <= i < |a.options.value| && act.value == Number(a.options.value[i].value)
    // which required attributes write
    ensures a.requiredLevel == Required && IsPlainType(a.attributeType) ==>
      (act.Write? <==> a.attributeType != "optionset" || HasOptions(a))
    // lookups: queried exactly when not owner-related and with entity types
    ensures act.Await? ==>
      && a.attributeType == "lookup"
      && !IsOwnerLookup(a)
      && |LookupEntityTypes(a)| > 0
      && act.lookup == Pending(a.name, LookupEntityTypes(a)[0], d.query)
    ensures a.requiredLevel == Required && a.attributeType == "lookup" ==>
      (act.Await? <==> !IsOwnerLookup(a) && |LookupEntityTypes(a)| > 0)
    // anything else does nothing
    ensures !IsPlainType(a.attributeType) && a.attributeType != "lookup" ==> act == Skip
  {
    if a.requiredLevel != Required then Skip
    else if a.attributeType == "string" then Write(a.name, Text(TextPrefix + d.suffix))
    else if a.attributeType == "memo" then Write(a.name, Text(MemoText))
    else if a.attributeType == "datetime" then Write(a.name, Text(d.timestamp))
    else if a.attributeType == "boolean" then Write(a.name, Flag(true))
    else if IsNumericType(a.attributeType) then Write(a.name, Number(d.number))
    else if a.attributeType == "optionset" then
      if HasOptions(a) then Write(a.name, Number(a.options.value[d.optionIndex].value)) else Skip
    else if a.attributeType == "lookup" then
      var types := LookupEntityTypes(a);
      if IsOwnerLookup(a) || |types| == 0 then Skip
      else Await(Pending(a.name, types[0], d.query))
    else Skip
  }

  /** The key and value a settled lookup query writes, if it writes one. */
  function Settle(record: map<string, Value>, p: Pending): map<string, Value>
  {
    match p.outcome
    case Failed => record
    case Retrieved(ids) =>
      if |ids| == 0 then record
      else record[FormatLookupBindingKey(p.attrName) := Text("/" + p.entity + "s(" + ids[0] + ")")]
  }

  // ---------------------------------------------------------------------------
  // The record, as functions of the attributes

  function Apply(record: map<string, Value>, act: Action): map<string, Value>
  {
    if act.Write? then record[act.key := act.value] else record
  }

  /** The record after the loop over the attributes, before any lookup settles. */
  function SyncRecord(attrs: seq<Attribute>, draws: seq<Draws>): map<string, Value>
    requires AllValidDraws(attrs, draws)
    decreases |attrs|
  {
    if attrs == [] then map[]
    else
      var n := |attrs| - 1;
      Apply(SyncRecord(attrs[..n], draws[..n]), Plan(attrs[n], draws[n]))
  }

  /** The lookup queries the loop starts, in the order it starts them. */
  function Promises(attrs: seq<Attribute>, draws: seq<Draws>): seq<Pending>
    requires AllValidDraws(attrs, draws)
    decreases |attrs|
  {
    if attrs == [] then []
    else
      var n := |attrs| - 1;
      var act := Plan(attrs[n], draws[n]);
      Promises(attrs[..n], draws[..n]) + if act.Await? then [act.lookup] else []
  }

  /** The record after the given queries have settled one after another. */
  function SettleAll(record: map<string, Value>, promises: seq<Pending>): map<string, Value>
    decreases |promises|
  {
    if promises == [] then record
    else
      var n := |promises| - 1;
      Settle(SettleAll(record, promises[..n]), promises[n])
  }

  /** The record that is submitted for creation. */
  function SubmittedRecord(attrs: seq<Attribute>, draws: seq<Draws>): map<string, Value>
    requires AllValidDraws(attrs, draws)
  {
    SettleAll(SyncRecord(attrs, draws), Promises(attrs, draws))
  }

  // ---------------------------------------------------------------------------
  // The script's loops

  /**
    The `forEach` over the attributes: fills `record` in place and collects
    the lookup queries it starts.
  */
  method FillRecord(attrs: seq<Attribute>, draws: seq<Draws>)
    returns (record: map<string, Value>, promises: seq<Pending>)
    requires AllValidDraws(attrs, draws)
    ensures record == SyncRecord(attrs, draws)
    ensures promises == Promises(attrs, draws)
  {
    record, promises := map[], [];
    var i := 0;
    while i < |attrs|
      invariant 0 <= i <= |attrs|
      invariant record == SyncRecord(attrs[..i], draws[..i])
      invariant promises == Promises(attrs[..i], draws[..i])
    {
      var a, d := attrs[i], draws[i];
      assert attrs[..i + 1][..i] == attrs[..i] && draws[..i + 1][..i] == draws[..i];
      if a.requiredLevel == Required {
        var t := a.attributeType;
        if t == "string" {
          record := record[a.name := Text(TextPrefix + d.suffix)];
        } else if t == "memo" {
          record := record[a.name := Text(MemoText)];
        } else if t == "datetime" {
          record := record[a.name := Text(d.timestamp)];
        } else if t == "boolean" {
          record := record[a.name := Flag(true)];
        } else if t == "integer" || t == "decimal" || t == "double" || t == "money" {
          record := record[a.name := Number(d.number)];
        } else if t == "optionset" {
          var options := a.options;
          if options.Some? && |options.value| > 0 {
            record := record[a.name := Number(options.value[d.optionIndex].value)];
          }
        } else if t == "lookup" {
          var types: seq<string> := [];
          if |a.controls| > 0 && a.controls[0].entityTypes.Some? {
            types := a.controls[0].entityTypes.value;
          }
          if a.name == "ownerid" || "systemuser" in types || "owner" in types {
            // owner-related lookups are skipped
          } else if |types| > 0 {
            promises := promises + [Pending(a.name, types[0], d.query)];
          }
        }
      }
      i := i + 1;
    }
    assert attrs[..i] == attrs && draws[..i] == draws;
  }

  /**
    `Promise.all`: every query's continuation runs, writing its binding into
    the record when it retrieved a record, before the record is submitted.
  */
  method AwaitLookups(record: map<string, Value>, promises: seq<Pending>)
    returns (submitted: map<string, Value>)
    ensures submitted == SettleAll(record, promises)
  {
    submitted := record;
    var i := 0;
    while i < |promises|
      invariant 0 <= i <= |promises|
      invariant submitted == SettleAll(record, promises[..i])
    {
      var p := promises[i];
      assert promises[..i + 1][..i] == promises[..i];
      if p.outcome.Retrieved? && |p.outcome.ids| > 0 {
        var bindingKey := FormatLookupBindingKey(p.attrName);
        submitted := submitted[bindingKey := Text("/" + p.entity + "s(" + p.outcome.ids[0] + ")")];
      }
      i := i + 1;
    }
    assert promises[..i] == promises;
  }

  /** The whole assembly: the loop, then the settled lookups; the result is what is submitted. */
  method BuildTestRecord(attrs: seq<Attribute>, draws: seq<Draws>)
    returns (submitted: map<string, Value>)
    requires AllValidDraws(attrs, draws)
    ensures submitted == SubmittedRecord(attrs, draws)
  {
    var record, promises := FillRecord(attrs, draws);
    submitted := AwaitLookups(record, promises);
  }
}
