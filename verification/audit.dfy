/** The audit trail: `AuditLog` rows and `AuditService.log_action`, with the
    `model_to_dict` snapshots stored as JSON objects. */
module Audit {
  import opened Wrappers
  import opened Text
  import opened Dates
  import opened Money
  import opened Users

  datatype Action = Import | Reprocess | Update | Delete | Approve | Reject | Export

  /** The stored value of `AuditLog.Action`: upper-case letters that fit the
      20-character `action` column. */
  function ActionName(a: Action): (s: string)
    ensures 0 < |s| <= 20
    ensures forall i :: 0 <= i < |s| ==> 'A' <= s[i] <= 'Z'
  {
    match a
    case Import => "IMPORT"
    case Reprocess => "REPROCESS"
    case Update => "UPDATE"
    case Delete => "DELETE"
    case Approve => "APPROVE"
    case Reject => "REJECT"
    case Export => "EXPORT"
  }

  /** `get_action_display()`. */
  function ActionDisplay(a: Action): string {
    match a
    case Import => "Importação"
    case Reprocess => "Reprocessamento"
    case Update => "Atualização"
    case Delete => "Exclusão"
    case Approve => "Aprovação"
    case Reject => "Rejeição"
    case Export => "Download/Exportação"
  }

  /** Distinct actions are stored as distinct strings. */
  lemma ActionNamesDistinct(a: Action, b: Action)
    ensures ActionName(a) == ActionName(b) <==> a == b
  {
  }

  // ---- dictionaries ----

  /** A Python dict with string keys, in insertion order. */
  type Dict<V> = seq<(string, V)>

  /** `d.get(key)`: the value stored under `key`, if any. */
  function Lookup<V>(d: Dict<V>, key: string): (r: Option<V>)
    ensures r.None? <==> forall i :: 0 <= i < |d| ==> d[i].0 != key
    ensures r.Some? ==> exists i :: 0 <= i < |d| && d[i] == (key, r.value)
  {
    if |d| == 0 then None
    else if d[0].0 == key then Some(d[0].1)
    else
      var r := Lookup(d[1..], key);
      assert forall i :: 1 <= i < |d| ==> d[i] == d[1..][i - 1];
      if r.Some? then
        ghost var i :| 0 <= i < |d[1..]| && d[1..][i] == (key, r.value);
        assert d[i + 1] == (key, r.value);
        r
      else r
  }

  /** The first entry with a key decides what `Lookup` reads. */
  lemma {:induction false} LookupFirst<V>(d: Dict<V>, i: nat)
    requires i < |d| && forall j :: 0 <= j < i ==> d[j].0 != d[i].0
    ensures Lookup(d, d[i].0) == Some(d[i].1)
  {
    if i > 0 {
      LookupFirst(d[1..], i - 1);
    }
  }

  /** `d[key] = value`: replaces the entry for `key`, or appends one. */
  function Assign<V>(d: Dict<V>, key: string, value: V): (r: Dict<V>)
    ensures |r| == |d| || |r| == |d| + 1
    ensures (key, value) in r
    ensures forall i :: 0 <= i < |d| && d[i].0 != key ==> d[i] in r
  {
    if |d| == 0 then [(key, value)]
    else if d[0].0 == key then [(key, value)] + d[1..]
    else [d[0]] + Assign(d[1..], key, value)
  }

  /** After `d[key] = value`, reading `key` gives `value` and every other key
      reads as before. */
  lemma {:induction false} AssignLookup<V>(d: Dict<V>, key: string, value: V, other: string)
    ensures Lookup(Assign(d, key, value), key) == Some(value)
    ensures other != key ==> Lookup(Assign(d, key, value), other) == Lookup(d, other)
  {
    if |d| > 0 && d[0].0 != key {
      AssignLookup(d[1..], key, value, other);
      assert Assign(d, key, value)[1..] == Assign(d[1..], key, value);
    }
  }

  // ---- snapshots and JSON ----

  /** A field value as `model_to_dict` returns it. A field assigned in
      memory and not yet read back from the database keeps the Python value it
      was given: `Float` is a `float` so held. */
  datatype Value = Null | Str(s: string) | Int(i: int) | Float(f: real) | Dec(cents: int) | Day(date: Date)

  /** A value after the JSON round trip of `safe_serialize`. */
  datatype Json = JNull | JString(s: string) | JInt(i: int) | JFloat(f: real)

  predicate SerializableValue(v: Value) {
    v.Day? ==> IsValid(v.date)
  }

  /** `json.dumps(..., default=_json_serial)` followed by `json.loads` for one
      value: dates become ISO strings, decimals become `str(Decimal)`, JSON-native
      values (strings, integers, floats, null) pass through. */
  function JsonSerial(v: Value): (j: Json)
    requires SerializableValue(v)
    ensures v.Null? <==> j.JNull?
    ensures v.Int? <==> j.JInt?
    ensures v.Float? <==> j.JFloat?
    ensures v.Int? ==> j.i == v.i
    ensures v.Float? ==> j.f == v.f
    ensures v.Str? ==> j == JString(v.s)
    ensures v.Day? ==> j.JString? && |j.s| == 10
    ensures v.Dec? ==> j.JString? && |j.s| >= 4 && j.s[|j.s| - 3] == '.'
  {
    match v
    case Null => JNull
    case Str(s) => JString(s)
    case Int(i) => JInt(i)
    case Float(f) => JFloat(f)
    case Dec(c) => JString(DecimalString(c))
    case Day(d) => JString(IsoFormat(d))
  }

  predicate Serializable(d: Dict<Value>) {
    forall i :: 0 <= i < |d| ==> SerializableValue(d[i].1)
  }

  function Serialize(d: Dict<Value>): (r: Dict<Json>)
    requires Serializable(d)
    ensures |r| == |d|
    ensures forall i :: 0 <= i < |d| ==> r[i] == (d[i].0, JsonSerial(d[i].1))
  {
    seq(|d|, i requires 0 <= i < |d| && Serializable(d) => (d[i].0, JsonSerial(d[i].1)))
  }

  /** Serializing keeps every key and reads back each value through `JsonSerial`. */
  lemma {:induction false} SerializeLookup(d: Dict<Value>, key: string)
    requires Serializable(d)
    ensures Lookup(Serialize(d), key)
            == (if Lookup(d, key).Some? then Some(JsonSerial(Lookup(d, key).value)) else None)
  {
    if |d| > 0 && d[0].0 != key {
      assert Serialize(d)[1..] == Serialize(d[1..]);
      SerializeLookup(d[1..], key);
    }
  }

  /** `safe_serialize`: a falsy state (None or an empty dict) is stored as None. */
  function Clean(state: Option<Dict<Value>>): (r: Option<Dict<Json>>)
    requires state.Some? ==> Serializable(state.value)
    ensures r.None? <==> (state.None? || |state.value| == 0)
    ensures r.Some? ==> r.value == Serialize(state.value)
  {
    if state.None? || |state.value| == 0 then None else Some(Serialize(state.value))
  }

  /** Assigning a serializable value keeps a dict serializable. */
  lemma {:induction false} AssignSerializable(d: Dict<Value>, key: string, value: Value)
    requires Serializable(d) && SerializableValue(value)
    ensures Serializable(Assign(d, key, value))
  {
    if |d| > 0 && d[0].0 != key {
      AssignSerializable(d[1..], key, value);
    }
  }

  /** Serializing after `d[key] = value` reads the new value, serialized, at
      `key` and the old serialized entry at every other key. */
  lemma SerializeAssign(d: Dict<Value>, key: string, value: Value)
    requires Serializable(d) && SerializableValue(value)
    ensures Serializable(Assign(d, key, value))
    ensures Lookup(Serialize(Assign(d, key, value)), key) == Some(JsonSerial(value))
    ensures forall other :: other != key ==>
              Lookup(Serialize(Assign(d, key, value)), other) == Lookup(Serialize(d), other)
  {
    AssignSerializable(d, key, value);
    SerializeLookup(Assign(d, key, value), key);
    AssignLookup(d, key, value, key);
    forall other | other != key
      ensures Lookup(Serialize(Assign(d, key, value)), other) == Lookup(Serialize(d), other)
    {
      SerializeLookup(Assign(d, key, value), other);
      AssignLookup(d, key, value, other);
      SerializeLookup(d, other);
    }
  }

  // ---- log entries ----

  datatype AuditEntry = AuditEntry(
    user: Option<User>,
    action: Action,
    entity: string,
    entityId: string,
    before: Option<Dict<Json>>,
    after: Option<Dict<Json>>,
    createdAt: Moment)

  /** `AuditService.log_action`: appends one row; the entity is the override
      name when given and non-empty, else the model's class name; the id is
      `str(pk)`; the user is kept only when authenticated. Nothing in this call
      can fail, so it never raises. */
  function LogAction(log: seq<AuditEntry>, actor: Actor, action: Action,
                     className: string, pk: int,
                     before: Option<Dict<Value>>, after: Option<Dict<Value>>,
                     entityName: Option<string>, now: Moment): (r: seq<AuditEntry>)
    requires before.Some? ==> Serializable(before.value)
    requires after.Some? ==> Serializable(after.value)
    ensures |r| == |log| + 1 && r[..|log|] == log
    ensures r[|log|].action == action && r[|log|].createdAt == now
    ensures r[|log|].entity == OrElse(entityName, className)
    ensures r[|log|].entityId == IntToString(pk)
    ensures r[|log|].user.Some? <==> actor.Authenticated?
    ensures actor.Authenticated? ==> r[|log|].user == Some(actor.user)
    ensures r[|log|].before == Clean(before) && r[|log|].after == Clean(after)
  {
    var user := if actor.Authenticated? then Some(actor.user) else None;
    log + [AuditEntry(user, action, OrElse(entityName, className), IntToString(pk),
                      Clean(before), Clean(after), now)]
  }
}
