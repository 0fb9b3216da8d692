/**
 * `CustomJSONRenderer.render` (dante_library_project/renderers.py): the
 * envelope `{status_code, message, data}` every JSON response is wrapped
 * in, computed from the view's data and the response's status code.
 *
 * The data is a Python value as the views hand it over; dictionaries keep
 * their insertion order, which the error-message search depends on. The
 * status phrase table (`HTTPStatus(code).phrase`) is a parameter, and the
 * JSON encoding done by the base class is not modelled: `Render` returns
 * the value that is encoded.
 */
module Renderers {
  import opened Wrappers

  /** A Python value: `None`, a bool, an int, a `str`, a `list` or `tuple`,
      a `dict` (string keys, in insertion order) or any other object,
      represented by its truth value. */
  datatype Value =
    | Null
    | Bool(b: bool)
    | Int(i: int)
    | Str(s: string)
    | List(items: seq<Value>)
    | Dict(entries: seq<(string, Value)>)
    | Other(truthy: bool)

  /** `bool(v)`. */
  predicate Truthy(v: Value) {
    match v
    case Null => false
    case Bool(b) => b
    case Int(i) => i != 0
    case Str(s) => s != ""
    case List(items) => items != []
    case Dict(entries) => entries != []
    case Other(t) => t
  }

  // ---------------------------------------------------------------------
  // Dictionaries
  // ---------------------------------------------------------------------

  /** `set(d.keys())`. */
  function Keys(entries: seq<(string, Value)>): set<string> {
    set i | 0 <= i < |entries| :: entries[i].0
  }

  /** `d.get(key)`: the value stored under `key`, or `None`. */
  function Get(entries: seq<(string, Value)>, key: string): (r: Value)
    ensures key !in Keys(entries) ==> r == Null
    ensures key in Keys(entries) ==> exists i :: 0 <= i < |entries| && entries[i] == (key, r)
  {
    if entries == [] then Null
    else if entries[0].0 == key then
      assert entries[0] == (key, entries[0].1);
      entries[0].1
    else
      var r := Get(entries[1..], key);
      assert Keys(entries) == {entries[0].0} + Keys(entries[1..]) by {
        forall k ensures k in Keys(entries) <==> k == entries[0].0 || k in Keys(entries[1..]) {
          if k in Keys(entries) && k != entries[0].0 {
            var i :| 0 <= i < |entries| && entries[i].0 == k;
            assert entries[1..][i - 1].0 == k;
          }
          if k in Keys(entries[1..]) {
            var i :| 0 <= i < |entries[1..]| && entries[1..][i].0 == k;
            assert entries[i + 1].0 == k;
          }
        }
      }
      if key in Keys(entries[1..]) then
        var i :| 0 <= i < |entries[1..]| && entries[1..][i] == (key, r);
        assert entries[i + 1] == (key, r);
        r
      else
        r
  }

  /** `d.values()`, in order. The ensures only spells out the comprehension
      for callers; `FirstMessageFound` states what the search does with it. */
  function Values(entries: seq<(string, Value)>): (r: seq<Value>)
    ensures |r| == |entries| && forall i :: 0 <= i < |entries| ==> r[i] == entries[i].1
  {
    seq(|entries|, i requires 0 <= i < |entries| => entries[i].1)
  }

  // ---------------------------------------------------------------------
  // The first error message
  // ---------------------------------------------------------------------

  /** What `first_msg` is set to when the search meets `v` directly: the head
      of a non-empty list or tuple, or a string itself. */
  function DirectHit(v: Value): Option<Value> {
    match v
    case List(items) => if items != [] then Some(items[0]) else None
    case Str(_) => Some(v)
    case _ => None
  }

  /** The inner loop over a nested dict's values: the first direct hit. */
  function NestedHit(vs: seq<Value>): Option<Value>
    decreases |vs|
  {
    if vs == [] then None
    else if DirectHit(vs[0]).Some? then DirectHit(vs[0])
    else NestedHit(vs[1..])
  }

  /** The message the outer loop settles on, if it is truthy: a direct hit
      ends the search (even a falsy one, which then yields nothing); a
      nested dict ends it only when its hit is truthy. */
  function FirstMessage(vs: seq<Value>): (r: Option<Value>)
    ensures r.Some? ==> Truthy(r.value)
    decreases |vs|
  {
    if vs == [] then None
    else
      var v := vs[0];
      match DirectHit(v)
      case Some(h) => if Truthy(h) then Some(h) else None
      case None =>
        if v.Dict? && NestedHit(Values(v.entries)).Some? && Truthy(NestedHit(Values(v.entries)).value) then
          NestedHit(Values(v.entries))
        else
          FirstMessage(vs[1..])
  }

  /** What `first_msg` becomes from one value of the outer loop. */
  function Hit(v: Value): Option<Value> {
    if DirectHit(v).Some? then DirectHit(v)
    else if v.Dict? then NestedHit(Values(v.entries))
    else None
  }

  /** The outer loop breaks at `v`. */
  predicate Stops(v: Value) {
    DirectHit(v).Some? || (v.Dict? && Hit(v).Some? && Truthy(Hit(v).value))
  }

  /** The message is found exactly when some value yields a truthy hit and
      no value before it stops the search; then it is that hit. */
  lemma {:induction false} FirstMessageFound(vs: seq<Value>, m: Value)
    ensures FirstMessage(vs) == Some(m) <==>
      exists i :: 0 <= i < |vs| && Hit(vs[i]) == Some(m) && Truthy(m) && Stops(vs[i]) &&
        forall j :: 0 <= j < i ==> !Stops(vs[j])
    decreases |vs|
  {
    if vs != [] {
      FirstMessageFound(vs[1..], m);
      var v := vs[0];
      if FirstMessage(vs) == Some(m) {
        if !Stops(v) {
          assert FirstMessage(vs) == FirstMessage(vs[1..]);
          var i :| 0 <= i < |vs[1..]| && Hit(vs[1..][i]) == Some(m) && Truthy(m) && Stops(vs[1..][i]) &&
            forall j :: 0 <= j < i ==> !Stops(vs[1..][j]);
          assert vs[i + 1] == vs[1..][i];
          forall j | 0 <= j < i + 1 ensures !Stops(vs[j]) {
            if j > 0 {
              assert vs[j] == vs[1..][j - 1];
            }
          }
        } else {
          assert Hit(vs[0]) == Some(m);
        }
      }
      if exists i :: 0 <= i < |vs| && Hit(vs[i]) == Some(m) && Truthy(m) && Stops(vs[i]) &&
           forall j :: 0 <= j < i ==> !Stops(vs[j])
      {
        var i :| 0 <= i < |vs| && Hit(vs[i]) == Some(m) && Truthy(m) && Stops(vs[i]) &&
          forall j :: 0 <= j < i ==> !Stops(vs[j]);
        if i > 0 {
          assert !Stops(v);
          assert vs[1..][i - 1] == vs[i];
          forall j | 0 <= j < i - 1 ensures !Stops(vs[1..][j]) {
            assert vs[1..][j] == vs[j + 1];
          }
        }
      }
    }
  }

  /** The inner `for vv in v.values()` loop: `first_msg` is the first
      direct hit, or unchanged when there is none. */
  method ScanNested(vs: seq<Value>, before: Value) returns (firstMsg: Value)
    ensures firstMsg == match NestedHit(vs) case Some(h) => h case None => before
  {
    firstMsg := before;
    var k := 0;
    while k < |vs|
      invariant 0 <= k <= |vs|
      invariant NestedHit(vs) == NestedHit(vs[k..])
    {
      var vv := vs[k];
      if vv.List? && vv.items != [] {
        firstMsg := vv.items[0];
        break;
      }
      if vv.Str? {
        firstMsg := vv;
        break;
      }
      assert vs[k..][1..] == vs[k + 1..];
      k := k + 1;
    }
  }

  /** The `for v in data.values()` loop with its early exits. */
  method FindFirstMessage(vs: seq<Value>) returns (firstMsg: Value)
    ensures FirstMessage(vs) == if Truthy(firstMsg) then Some(firstMsg) else None
  {
    firstMsg := Null;
    var k := 0;
    while k < |vs|
      invariant 0 <= k <= |vs|
      invariant !Truthy(firstMsg)
      invariant FirstMessage(vs) == FirstMessage(vs[k..])
    {
      var v := vs[k];
      assert vs[k..][0] == v && vs[k..][1..] == vs[k + 1..];
      if v.List? && v.items != [] {
        firstMsg := v.items[0];
        break;
      }
      if v.Str? {
        firstMsg := v;
        break;
      }
      if v.Dict? {
        var values := Values(v.entries);
        firstMsg := ScanNested(values, firstMsg);
        if Truthy(firstMsg) {
          break;
        }
      }
      k := k + 1;
    }
  }

  // ---------------------------------------------------------------------
  // The envelope
  // ---------------------------------------------------------------------

  /** `{'status_code': ..., 'message': ..., 'data': ...}`. */
  function Envelope(status: Value, message: Value, data: Value): Value {
    Dict([("status_code", status), ("message", message), ("data", data)])
  }

  /** The view already returned the final envelope. */
  predicate IsEnvelope(data: Value) {
    data.Dict? && {"status_code", "message", "data"} <= Keys(data.entries)
  }

  /** The view returned `{'message': ..., 'data': ...}` without a status. */
  predicate IsMessageAndData(data: Value) {
    data.Dict? && "message" in Keys(data.entries) && "data" in Keys(data.entries) &&
    "status_code" !in Keys(data.entries)
  }

  /** `None` or the status code. */
  function StatusValue(status: Option<int>): Value {
    match status
    case Some(code) => Int(code)
    case None => Null
  }

  /** The status when the response gave none: 200 with data, 204 without. */
  function DefaultStatus(data: Value, status: Option<int>): int {
    match status
    case Some(code) => code
    case None => if data != Null then 200 else 204
  }

  /** The friendly message for data that is neither shape above. */
  function Message(data: Value, code: int, phrase: int -> string): Value {
    if data.Dict? then
      if "detail" in Keys(data.entries) then Get(data.entries, "detail")
      else if code >= 400 then
        match FirstMessage(Values(data.entries))
        case Some(m) => m
        case None => Str(phrase(code))
      else Str("OK")
    else if code >= 400 then Str(phrase(code))
    else Str("OK")
  }

  /** The value `render` hands to the JSON encoder. */
  function Payload(data: Value, status: Option<int>, phrase: int -> string): Value {
    if IsEnvelope(data) then data
    else if IsMessageAndData(data) then
      Envelope(StatusValue(status), Get(data.entries, "message"), Get(data.entries, "data"))
    else
      var code := DefaultStatus(data, status);
      Envelope(Int(code), Message(data, code, phrase), data)
  }

  /** `render`, step by step as the source takes it. */
  method Render(data: Value, status: Option<int>, phrase: int -> string) returns (payload: Value)
    ensures payload == Payload(data, status, phrase)
  {
    if data.Dict? && {"status_code", "message", "data"} <= Keys(data.entries) {
      return data;
    }
    var statusCode := StatusValue(status);
    var message: Value;
    var body := data;
    if data.Dict? && "message" in Keys(data.entries) && "data" in Keys(data.entries) && "status_code" !in Keys(data.entries) {
      message := Get(data.entries, "message");
      body := Get(data.entries, "data");
    } else {
      var code := DefaultStatus(data, status);
      statusCode := Int(code);
      if data.Dict? {
        if "detail" in Keys(data.entries) {
          message := Get(data.entries, "detail");
        } else if code >= 400 {
          var firstMsg := FindFirstMessage(Values(data.entries));
          message := if Truthy(firstMsg) then firstMsg else Str(phrase(code));
        } else {
          message := Str("OK");
        }
      } else {
        message := if code >= 400 then Str(phrase(code)) else Str("OK");
      }
    }
    payload := Envelope(statusCode, message, body);
  }

  // ---------------------------------------------------------------------
  // What the envelope promises
  // ---------------------------------------------------------------------

  /** A dict that already holds `status_code`, `message` and `data` is
      rendered unchanged, whatever the response status. */
  lemma EnvelopeUnchanged(data: Value, status: Option<int>, phrase: int -> string)
    requires data.Dict? && "status_code" in Keys(data.entries) && "message" in Keys(data.entries) &&
             "data" in Keys(data.entries)
    ensures Payload(data, status, phrase) == data
  {
  }

  /** Otherwise the payload is a dict with exactly the keys `status_code`,
      `message` and `data`, in that order. */
  lemma PayloadKeys(data: Value, status: Option<int>, phrase: int -> string)
    requires !IsEnvelope(data)
    ensures var r := Payload(data, status, phrase);
      r.Dict? && |r.entries| == 3 &&
      r.entries[0].0 == "status_code" && r.entries[1].0 == "message" && r.entries[2].0 == "data"
  {
  }

  /** `{'message': m, 'data': d}` is unwrapped: its message and data are
      used, and the status is the response's, possibly `None`. */
  lemma MessageAndDataUnwrapped(entries: seq<(string, Value)>, status: Option<int>, phrase: int -> string, m: Value, d: Value)
    requires (exists i :: 0 <= i < |entries| && entries[i] == ("message", m))
    requires (exists i :: 0 <= i < |entries| && entries[i] == ("data", d))
    requires "status_code" !in Keys(entries)
    requires forall i, j :: 0 <= i < j < |entries| ==> entries[i].0 != entries[j].0
    ensures Payload(Dict(entries), status, phrase) == Envelope(StatusValue(status), m, d)
  {
    var i :| 0 <= i < |entries| && entries[i] == ("message", m);
    var j :| 0 <= j < |entries| && entries[j] == ("data", d);
    assert "message" in Keys(entries) && "data" in Keys(entries);
    var gm := Get(entries, "message");
    var i' :| 0 <= i' < |entries| && entries[i'] == ("message", gm);
    assert i' == i;
    var gd := Get(entries, "data");
    var j' :| 0 <= j' < |entries| && entries[j'] == ("data", gd);
    assert j' == j;
  }

  /** Data of neither shape is kept as the payload's `data`, and the status
      is the response's, or 200 when there is data and 204 when there is
      none. */
  lemma WrappedStatusAndData(data: Value, status: Option<int>, phrase: int -> string)
    requires !IsEnvelope(data) && !IsMessageAndData(data)
    ensures var r := Payload(data, status, phrase);
      && r.entries[2].1 == data
      && r.entries[0].1 == Int(if status.Some? then status.value else if data == Null then 204 else 200)
  {
  }

  /** A dict with `detail` has that as its message. */
  lemma DetailMessage(data: Value, status: Option<int>, phrase: int -> string)
    requires data.Dict? && !IsEnvelope(data) && !IsMessageAndData(data) && "detail" in Keys(data.entries)
    ensures Payload(data, status, phrase).entries[1].1 == Get(data.entries, "detail")
  {
  }

  /** An error dict without `detail` has the first message the search finds,
      or the status phrase when it finds none. */
  lemma ErrorDictMessage(data: Value, status: Option<int>, phrase: int -> string)
    requires data.Dict? && !IsEnvelope(data) && !IsMessageAndData(data) && "detail" !in Keys(data.entries)
    requires DefaultStatus(data, status) >= 400
    ensures FirstMessage(Values(data.entries)).Some? ==>
      Payload(data, status, phrase).entries[1].1 == FirstMessage(Values(data.entries)).value
    ensures FirstMessage(Values(data.entries)) == None ==>
      Payload(data, status, phrase).entries[1].1 == Str(phrase(DefaultStatus(data, status)))
    ensures forall i ::
      (&& 0 <= i < |data.entries| && Stops(data.entries[i].1) && Hit(data.entries[i].1).Some?
       && Truthy(Hit(data.entries[i].1).value) && (forall j :: 0 <= j < i ==> !Stops(data.entries[j].1)))
      ==> Payload(data, status, phrase).entries[1].1 == Hit(data.entries[i].1).value
  {
    var vs := Values(data.entries);
    forall i | 0 <= i < |data.entries| && Stops(data.entries[i].1) && Hit(data.entries[i].1).Some? &&
        Truthy(Hit(data.entries[i].1).value) && (forall j :: 0 <= j < i ==> !Stops(data.entries[j].1))
      ensures Payload(data, status, phrase).entries[1].1 == Hit(data.entries[i].1).value
    {
      var m := Hit(vs[i]).value;
      assert forall j :: 0 <= j < i ==> !Stops(vs[j]) by {
        forall j | 0 <= j < i ensures !Stops(vs[j]) {
          assert vs[j] == data.entries[j].1;
        }
      }
      FirstMessageFound(vs, m);
    }
  }

  /** A non-error dict without `detail` gets "OK"; data that is not a dict
      gets "OK" below 400 and the status phrase from 400 on. */
  lemma PlainMessages(data: Value, status: Option<int>, phrase: int -> string)
    requires !IsEnvelope(data) && !IsMessageAndData(data)
    ensures var code := DefaultStatus(data, status);
      var message := Payload(data, status, phrase).entries[1].1;
      && (data.Dict? && "detail" !in Keys(data.entries) && code < 400 ==> message == Str("OK"))
      && (!data.Dict? ==> message == if code >= 400 then Str(phrase(code)) else Str("OK"))
  {
  }
}
