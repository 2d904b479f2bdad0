/**
  The request-body validator that guards bus creation and single-bus updates
  (`validateBus`). Every rule is evaluated; the request proceeds only when no
  rule produced a message, otherwise it is answered with status 400 and the
  whole list.
*/
module BusValidation {
  import opened JsValues

  /** The messages the validator can push. */
  datatype Message =
    | BusNumberRequired
    | BusNumberInvalid
    | RouteRequired
    | RouteTooShort
    | CapacityOutOfRange
    | CoordinatesMissing
    | LongitudeOutOfRange
    | LatitudeOutOfRange

  /** The exact text sent to the client for each message. */
  function Text(m: Message): string
  {
    match m
    case BusNumberRequired => "Bus number is required"
    case BusNumberInvalid => "Bus number not valid!"
    case RouteRequired => "Route is required"
    case RouteTooShort => "Route must be a string with at least 3 characters"
    case CapacityOutOfRange => "Capacity must be an integer between 1 and 100"
    case CoordinatesMissing => "Current location must have coordinates [longitude, latitude]"
    case LongitudeOutOfRange => "Longitude must be between -180 and 180"
    case LatitudeOutOfRange => "Latitude must be between -90 and 90"
  }

  /**
    No two messages share a text, so a list of messages and the list of
    strings sent in the 400 body determine each other.
  */
  lemma TextsDistinct(m1: Message, m2: Message)
    ensures m1 != m2 ==> Text(m1) != Text(m2)
  {
    if m1 != m2 {
      TextLength(m1);
      TextLength(m2);
      assert |Text(m1)| != |Text(m2)|;
    }
  }

  /** Every text has its own length. */
  lemma TextLength(m: Message)
    ensures |Text(m)| == match m
      case BusNumberRequired => 22
      case BusNumberInvalid => 21
      case RouteRequired => 17
      case RouteTooShort => 49
      case CapacityOutOfRange => 45
      case CoordinatesMissing => 60
      case LongitudeOutOfRange => 38
      case LatitudeOutOfRange => 35
  {
    match m
    case BusNumberRequired =>
    case BusNumberInvalid =>
    case RouteRequired =>
    case RouteTooShort =>
    case CapacityOutOfRange =>
    case CoordinatesMissing =>
    case LongitudeOutOfRange =>
    case LatitudeOutOfRange =>
  }

  /** What the middleware does with the request: call `next()`, or answer with a status and the messages, each sent as its `Text`. */
  datatype Verdict = Next | BadRequest(status: int, errors: seq<Message>)

  // ---------------------------------------------------------------------------
  // The pattern /^[A-Za-z0-9]{4}$/

  predicate IsAsciiAlnum(c: char)
  {
    ('A' <= c <= 'Z') || ('a' <= c <= 'z') || ('0' <= c <= '9')
  }

  /** A matcher for `^[A-Za-z0-9]{n}$`: consumes one character of the class per repetition, then requires the end of input. */
  function MatchesAlnumRun(s: string, n: nat): bool
  {
    if n == 0 then s == []
    else s != [] && IsAsciiAlnum(s[0]) && MatchesAlnumRun(s[1..], n - 1)
  }

  lemma {:induction false} MatchesAlnumRunExactly(s: string, n: nat)
    ensures MatchesAlnumRun(s, n) <==> |s| == n && forall k :: 0 <= k < |s| ==> IsAsciiAlnum(s[k])
  {
    if n > 0 && s != [] {
      MatchesAlnumRunExactly(s[1..], n - 1);
      if |s| == n && (forall k :: 0 <= k < |s| ==> IsAsciiAlnum(s[k])) {
        assert forall k :: 0 <= k < |s[1..]| ==> IsAsciiAlnum(s[1..][k]) by {
          forall k | 0 <= k < |s[1..]| ensures IsAsciiAlnum(s[1..][k]) {
            assert s[1..][k] == s[k + 1];
          }
        }
      }
      if MatchesAlnumRun(s, n) {
        forall k | 0 <= k < |s| ensures IsAsciiAlnum(s[k]) {
          if k > 0 { assert s[k] == s[1..][k - 1]; }
        }
      }
    }
  }

  /** A well-formed bus number: a string of exactly four ASCII letters or digits. */
  predicate IsBusNumber(v: Value)
  {
    v.Str? && |v.s| == 4 && forall k :: 0 <= k < 4 ==> IsAsciiAlnum(v.s[k])
  }

  // ---------------------------------------------------------------------------
  // The four rules, each as the messages it contributes

  /** The `busNumber` rule of `validateBus`: a falsy bus number is "required"; a truthy one must be a string matching the pattern. */
  function BusNumberErrors(v: Value): (r: seq<Message>)
    ensures r == [] <==> IsBusNumber(v)
    ensures forall m :: m in r ==> RuleOf(m) == 0
    ensures !Truthy(v) ==> r == [BusNumberRequired]
    ensures Truthy(v) && !IsBusNumber(v) ==> r == [BusNumberInvalid]
  {
    if !Truthy(v) then [BusNumberRequired]
    else if !v.Str? then [BusNumberInvalid]
    else
      MatchesAlnumRunExactly(v.s, 4);
      if !MatchesAlnumRun(v.s, 4) then [BusNumberInvalid] else []
  }

  /** A well-formed route: a string of at least three characters. */
  predicate IsRoute(v: Value)
  {
    v.Str? && |v.s| >= 3
  }

  /** The `route` rule of `validateBus`: a falsy route is "required"; a truthy one must be a string of length at least 3. */
  function RouteErrors(v: Value): (r: seq<Message>)
    ensures r == [] <==> IsRoute(v)
    ensures forall m :: m in r ==> RuleOf(m) == 1
    ensures !Truthy(v) ==> r == [RouteRequired]
    ensures Truthy(v) && !IsRoute(v) ==> r == [RouteTooShort]
  {
    if !Truthy(v) then [RouteRequired]
    else if !v.Str? || |v.s| < 3 then [RouteTooShort]
    else []
  }

  /** An acceptable capacity: absent, or an integer from 1 to 100 inclusive. */
  predicate IsCapacity(v: Value)
  {
    v.Undefined? || (IsInteger(v) && 1.0 <= v.n <= 100.0)
  }

  /** The `capacity` rule of `validateBus`: only an `undefined` capacity escapes the check; `null` does not. */
  function CapacityErrors(v: Value): (r: seq<Message>)
    ensures r == [] <==> IsCapacity(v)
    ensures forall m :: m in r ==> RuleOf(m) == 2
    ensures r != [] ==> r == [CapacityOutOfRange]
  {
    if !v.Undefined? then
      if !IsInteger(v) || v.n < 1.0 || v.n > 100.0 then [CapacityOutOfRange] else []
    else []
  }

  /** A location whose `coordinates` is an array of exactly two elements. */
  predicate HasCoordinatePair(v: Value)
  {
    !Nullish(v) && Prop(v, "coordinates").Arr? && |Prop(v, "coordinates").elems| == 2
  }

  function Longitude(v: Value): Value
    requires HasCoordinatePair(v)
  {
    Prop(v, "coordinates").elems[0]
  }

  function Latitude(v: Value): Value
    requires HasCoordinatePair(v)
  {
    Prop(v, "coordinates").elems[1]
  }

  /** The `longitude`/`latitude` checks of the `currentLocation` rule: the range checks on a coordinate pair; they are independent and their bounds inclusive. */
  function PairErrors(longitude: Value, latitude: Value): (r: seq<Message>)
    ensures r == [] <==>
      !Below(longitude, -180.0) && !Above(longitude, 180.0) && !Below(latitude, -90.0) && !Above(latitude, 90.0)
    ensures LongitudeOutOfRange in r <==> Below(longitude, -180.0) || Above(longitude, 180.0)
    ensures LatitudeOutOfRange in r <==> Below(latitude, -90.0) || Above(latitude, 90.0)
    ensures CoordinatesMissing !in r
    ensures |r| == 2 ==> r == [LongitudeOutOfRange, LatitudeOutOfRange]
  {
    (if Below(longitude, -180.0) || Above(longitude, 180.0) then [LongitudeOutOfRange] else [])
    + (if Below(latitude, -90.0) || Above(latitude, 90.0) then [LatitudeOutOfRange] else [])
  }

  /** An acceptable location: absent (falsy), or a pair whose longitude and latitude are not out of range. */
  predicate IsLocation(v: Value)
  {
    !Truthy(v) ||
    (HasCoordinatePair(v)
     && !Below(Longitude(v), -180.0) && !Above(Longitude(v), 180.0)
     && !Below(Latitude(v), -90.0) && !Above(Latitude(v), 90.0))
  }

  /** The `currentLocation` rule of `validateBus`: a truthy location without a coordinate pair gets one message and no range check; with a pair, the two range checks are independent. */
  function LocationErrors(v: Value): (r: seq<Message>)
    ensures r == [] <==> IsLocation(v)
    ensures forall m :: m in r ==> RuleOf(m) == 3
    ensures |r| <= 2
    ensures Truthy(v) && !HasCoordinatePair(v) ==> r == [CoordinatesMissing]
    ensures CoordinatesMissing in r ==> r == [CoordinatesMissing]
    ensures |r| == 2 ==> r == [LongitudeOutOfRange, LatitudeOutOfRange]
    ensures LongitudeOutOfRange in r <==>
      Truthy(v) && HasCoordinatePair(v) && (Below(Longitude(v), -180.0) || Above(Longitude(v), 180.0))
    ensures LatitudeOutOfRange in r <==>
      Truthy(v) && HasCoordinatePair(v) && (Below(Latitude(v), -90.0) || Above(Latitude(v), 90.0))
  {
    if Truthy(v) then
      var coordinates := Prop(v, "coordinates");
      if !Truthy(coordinates) || !coordinates.Arr? || |coordinates.elems| != 2 then
        [CoordinatesMissing]
      else
        var longitude, latitude := coordinates.elems[0], coordinates.elems[1];
        PairErrors(longitude, latitude)
    else []
  }

  // ---------------------------------------------------------------------------
  // The whole body

  /** Which rule a message belongs to, in the order the rules run. */
  function RuleOf(m: Message): nat
  {
    match m
    case BusNumberRequired | BusNumberInvalid => 0
    case RouteRequired | RouteTooShort => 1
    case CapacityOutOfRange => 2
    case CoordinatesMissing | LongitudeOutOfRange | LatitudeOutOfRange => 3
  }

  /** A body every rule accepts. */
  predicate IsAcceptableBus(body: map<string, Value>)
  {
    IsBusNumber(Field(body, "busNumber")) && IsRoute(Field(body, "route"))
    && IsCapacity(Field(body, "capacity")) && IsLocation(Field(body, "currentLocation"))
  }

  /** All messages for a body: no rule short-circuits another, and messages come rule by rule. */
  function BusErrors(body: map<string, Value>): (r: seq<Message>)
    ensures r == [] <==> IsAcceptableBus(body)
    ensures |r| <= 5
  {
    var r0 := BusNumberErrors(Field(body, "busNumber"));
    var r1 := RouteErrors(Field(body, "route"));
    var r2 := CapacityErrors(Field(body, "capacity"));
    var r3 := LocationErrors(Field(body, "currentLocation"));
    r0 + r1 + r2 + r3
  }

  /** Rules are reported in source order: bus number, route, capacity, location. */
  lemma BusErrorsInRuleOrder(body: map<string, Value>)
    ensures var r := BusErrors(body); forall i, j :: 0 <= i < j < |r| ==> RuleOf(r[i]) <= RuleOf(r[j])
  {
  }

  /** The messages of `ms` that rule `k` produced, in order. */
  function OfRule(ms: seq<Message>, k: nat): (r: seq<Message>)
    ensures |r| <= |ms|
    ensures forall m :: m in r <==> m in ms && RuleOf(m) == k
  {
    if ms == [] then []
    else (if RuleOf(ms[0]) == k then [ms[0]] else []) + OfRule(ms[1..], k)
  }

  lemma {:induction false} OfRuleAppend(a: seq<Message>, b: seq<Message>, k: nat)
    ensures OfRule(a + b, k) == OfRule(a, k) + OfRule(b, k)
  {
    if a != [] {
      assert (a + b)[1..] == a[1..] + b;
      OfRuleAppend(a[1..], b, k);
    } else {
      assert a + b == b;
    }
  }

  lemma {:induction false} OfRuleAll(ms: seq<Message>, k: nat)
    requires forall m :: m in ms ==> RuleOf(m) == k
    ensures OfRule(ms, k) == ms
  {
    if ms != [] {
      OfRuleAll(ms[1..], k);
    }
  }

  lemma {:induction false} OfRuleNone(ms: seq<Message>, k: nat)
    requires forall m :: m in ms ==> RuleOf(m) != k
    ensures OfRule(ms, k) == []
  {
    if ms != [] {
      OfRuleNone(ms[1..], k);
    }
  }

  lemma OfRuleSplits(r0: seq<Message>, r1: seq<Message>, r2: seq<Message>, r3: seq<Message>, k: nat)
    requires k < 4
    requires forall m :: m in r0 ==> RuleOf(m) == 0
    requires forall m :: m in r1 ==> RuleOf(m) == 1
    requires forall m :: m in r2 ==> RuleOf(m) == 2
    requires forall m :: m in r3 ==> RuleOf(m) == 3
    ensures OfRule(r0 + r1 + r2 + r3, k) == [r0, r1, r2, r3][k]
  {
    OfRuleAppend(r0 + r1 + r2, r3, k);
    OfRuleAppend(r0 + r1, r2, k);
    OfRuleAppend(r0, r1, k);
    if k == 0 { OfRuleAll(r0, k); } else { OfRuleNone(r0, k); }
    if k == 1 { OfRuleAll(r1, k); } else { OfRuleNone(r1, k); }
    if k == 2 { OfRuleAll(r2, k); } else { OfRuleNone(r2, k); }
    if k == 3 { OfRuleAll(r3, k); } else { OfRuleNone(r3, k); }
  }

  /**
    No rule short-circuits another: the messages of each rule in the full list
    are exactly what that rule yields for its own field, whatever the other fields hold.
  */
  lemma RulesReportedIndependently(body: map<string, Value>)
    ensures OfRule(BusErrors(body), 0) == BusNumberErrors(Field(body, "busNumber"))
    ensures OfRule(BusErrors(body), 1) == RouteErrors(Field(body, "route"))
    ensures OfRule(BusErrors(body), 2) == CapacityErrors(Field(body, "capacity"))
    ensures OfRule(BusErrors(body), 3) == LocationErrors(Field(body, "currentLocation"))
  {
    var r0 := BusNumberErrors(Field(body, "busNumber"));
    var r1 := RouteErrors(Field(body, "route"));
    var r2 := CapacityErrors(Field(body, "capacity"));
    var r3 := LocationErrors(Field(body, "currentLocation"));
    assert BusErrors(body) == r0 + r1 + r2 + r3;
    OfRuleSplits(r0, r1, r2, r3, 0);
    OfRuleSplits(r0, r1, r2, r3, 1);
    OfRuleSplits(r0, r1, r2, r3, 2);
    OfRuleSplits(r0, r1, r2, r3, 3);
  }

  /** The `busNumber` rule as statements: push at most one bus-number message. */
  method CheckBusNumber(errors: seq<Message>, busNumber: Value) returns (errors': seq<Message>)
    ensures errors' == errors + BusNumberErrors(busNumber)
  {
    errors' := errors;
    if !Truthy(busNumber) {
      errors' := errors' + [BusNumberRequired];
    } else if !busNumber.Str? || !MatchesAlnumRun(busNumber.s, 4) {
      errors' := errors' + [BusNumberInvalid];
    }
  }

  /** The `route` rule as statements: push at most one route message. */
  method CheckRoute(errors: seq<Message>, route: Value) returns (errors': seq<Message>)
    ensures errors' == errors + RouteErrors(route)
  {
    errors' := errors;
    if !Truthy(route) {
      errors' := errors' + [RouteRequired];
    } else if !route.Str? || |route.s| < 3 {
      errors' := errors' + [RouteTooShort];
    }
  }

  /** The `capacity` rule as statements: push the capacity message when a defined capacity is out of range. */
  method CheckCapacity(errors: seq<Message>, capacity: Value) returns (errors': seq<Message>)
    ensures errors' == errors + CapacityErrors(capacity)
  {
    errors' := errors;
    if !capacity.Undefined? {
      if !IsInteger(capacity) || capacity.n < 1.0 || capacity.n > 100.0 {
        errors' := errors' + [CapacityOutOfRange];
      }
    }
  }

  /** The `currentLocation` rule as statements: push the coordinates message, or the range messages of the pair. */
  method CheckLocation(errors: seq<Message>, currentLocation: Value) returns (errors': seq<Message>)
    ensures errors' == errors + LocationErrors(currentLocation)
  {
    errors' := errors;
    if Truthy(currentLocation) {
      var coordinates := Prop(currentLocation, "coordinates");
      if !Truthy(coordinates) || !coordinates.Arr? || |coordinates.elems| != 2 {
        errors' := errors' + [CoordinatesMissing];
      } else {
        var longitude, latitude := coordinates.elems[0], coordinates.elems[1];
        if Below(longitude, -180.0) || Above(longitude, 180.0) {
          errors' := errors' + [LongitudeOutOfRange];
        }
        if Below(latitude, -90.0) || Above(latitude, 90.0) {
          errors' := errors' + [LatitudeOutOfRange];
        }
      }
    }
  }

  /** `validateBus`: every rule pushes its messages in turn; `next()` runs exactly when none was pushed. */
  method ValidateBus(body: map<string, Value>) returns (verdict: Verdict)
    ensures verdict.Next? <==> IsAcceptableBus(body)
    ensures verdict.BadRequest? ==> verdict.status == 400 && verdict.errors == BusErrors(body)
  {
    var errors: seq<Message> := [];
    errors := CheckBusNumber(errors, Field(body, "busNumber"));
    errors := CheckRoute(errors, Field(body, "route"));
    errors := CheckCapacity(errors, Field(body, "capacity"));
    errors := CheckLocation(errors, Field(body, "currentLocation"));

    if |errors| > 0 {
      return BadRequest(400, errors);
    }
    verdict := Next;
  }
}
