/** The inventory routes of server/src/routes/resources.js: the `resources`
    table as a map from id to row, changed by create, the partial update
    (PATCH) and replenish, and the read-only low-stock listing. The PATCH
    route builds a parameterised `SET` clause; the model builds the same
    text and reads it back the way the database binds it. `low_stock_view`
    is a database view whose definition is not part of this model: its
    rows are a parameter. */
module Resources {

  import opened Wrappers
  import opened Http
  import JsText
  import Ordering

  datatype ResourceStatus = Available | Unavailable | Reserved

  const StatusNames: seq<string> := ["Available", "Unavailable", "Reserved"]

  function StatusName(s: ResourceStatus): string {
    match s
    case Available => "Available"
    case Unavailable => "Unavailable"
    case Reserved => "Reserved"
  }

  /** The status a valid status text names. */
  function StatusNamed(t: string): (s: Option<ResourceStatus>)
    ensures s.Some? <==> t in StatusNames
    ensures s.Some? ==> StatusName(s.value) == t
  {
    if t == "Available" then Some(Available)
    else if t == "Unavailable" then Some(Unavailable)
    else if t == "Reserved" then Some(Reserved)
    else None
  }

  datatype Coordinates = Coordinates(latitude: Option<real>, longitude: Option<real>)

  datatype StorageLocation = StorageLocation(id: int, name: string, city: string, state: string, position: Coordinates)

  datatype Resource = Resource(
    id: int,
    resourceType: string,
    quantityAvailable: int,
    status: ResourceStatus,
    storageLocationId: Option<int>,
    updatedAt: int)

  const QuantityColumn: string := "quantity_available"
  const StatusColumn: string := "status"
  const LocationColumn: string := "storage_location_id"

  // ---- validation (the Joi schemas; a failure is 422 before any change) ----

  /** What the create schema lets through. */
  datatype NewResource = NewResource(resourceType: string, quantityAvailable: int, status: ResourceStatus, storageLocationId: Option<int>)

  /** `storage_location_id: Joi.number().integer().allow(null)`: absent and
      null both store NULL. */
  function LocationField(v: Option<Json>): (r: Option<Option<int>>)
    ensures r.Some? <==> v.None? || v.value.Null? || IsInteger(v.value)
    ensures r.Some? && r.value.Some? ==> v.Some? && v.value.Number? && r.value.value as real == v.value.n
    ensures v.None? || v.value.Null? ==> r == Some(None)
    ensures v.Some? && v.value.Number? && r.Some? ==> r.value == Some(v.value.n.Floor)
  {
    if v.None? || v.value.Null? then Some(None)
    else if IsInteger(v.value) then Some(Some(v.value.n.Floor))
    else None
  }

  /** The create schema: a resource type of 1 to 50 characters, a quantity
      that is an integer of at least 0, a status among the three (absent
      means "Available"), and an optional storage location. */
  function ValidateCreate(body: Body): (r: Outcome<NewResource>)
    ensures r.Err? ==> r.error == Unprocessable
    ensures r.Ok? ==> r.value.quantityAvailable >= 0
    ensures r.Ok? <==> && Lookup(body, "resource_type").Some? && IsText(Lookup(body, "resource_type").value, 50)
                       && Lookup(body, QuantityColumn).Some? && IsIntegerAtLeast(Lookup(body, QuantityColumn).value, 0)
                       && (Lookup(body, StatusColumn).None? || IsOneOf(Lookup(body, StatusColumn).value, StatusNames))
                       && LocationField(Lookup(body, LocationColumn)).Some?
    ensures r.Ok? ==> && Some(Text(r.value.resourceType)) == Lookup(body, "resource_type")
                      && r.value.quantityAvailable as real == Lookup(body, QuantityColumn).value.n
                      && (Lookup(body, StatusColumn).None? ==> r.value.status == Available)
                      && (Lookup(body, StatusColumn).Some? ==> Lookup(body, StatusColumn) == Some(Text(StatusName(r.value.status))))
    ensures r.Ok? ==> && (Lookup(body, LocationColumn).None? || Lookup(body, LocationColumn).value.Null? ==>
                            r.value.storageLocationId == None)
                      && (Lookup(body, LocationColumn).Some? && Lookup(body, LocationColumn).value.Number? ==>
                            r.value.storageLocationId == Some(Lookup(body, LocationColumn).value.n.Floor))
  {
    var resourceType := Lookup(body, "resource_type");
    var quantity := Lookup(body, QuantityColumn);
    var status := Lookup(body, StatusColumn);
    var location := LocationField(Lookup(body, LocationColumn));
    if resourceType.None? || !IsText(resourceType.value, 50) then Err(Unprocessable)
    else if quantity.None? || !IsIntegerAtLeast(quantity.value, 0) then Err(Unprocessable)
    else if status.Some? && !IsOneOf(status.value, StatusNames) then Err(Unprocessable)
    else if location.None? then Err(Unprocessable)
    else
      Ok(NewResource(resourceType.value.s, quantity.value.n.Floor,
                     if status.None? then Available else StatusNamed(status.value.s).value,
                     location.value))
  }

  predicate IsColumn(key: string) {
    key == QuantityColumn || key == StatusColumn || key == LocationColumn
  }

  /** The update schema's rule for one known key. */
  predicate ValidColumnValue(key: string, v: Json) {
    if key == QuantityColumn then IsIntegerAtLeast(v, 0)
    else if key == StatusColumn then IsOneOf(v, StatusNames)
    else if key == LocationColumn then v.Null? || IsInteger(v)
    else false
  }

  /** The positions from `from` on that hold a known key, ascending: every
      such position, and nothing else. */
  function KnownPositions(body: Body, from: nat): (ps: seq<nat>)
    requires from <= |body|
    ensures forall k :: 0 <= k < |ps| ==> from <= ps[k] < |body| && IsColumn(body[ps[k]].0)
    ensures forall k, l :: 0 <= k < l < |ps| ==> ps[k] < ps[l]
    ensures forall i :: from <= i < |body| && IsColumn(body[i].0) ==> i in ps
    decreases |body| - from
  {
    if from == |body| then []
    else
      var rest := KnownPositions(body, from + 1);
      if IsColumn(body[from].0) then [from] + rest else rest
  }

  /** The entries at `KnownPositions(body, from)`, in that order. */
  function KnownFieldsFrom(body: Body, from: nat): (r: Body)
    requires from <= |body|
    ensures |r| == |KnownPositions(body, from)|
    ensures forall k :: 0 <= k < |r| ==> r[k] == body[KnownPositions(body, from)[k]]
    decreases |body| - from
  {
    if from == |body| then []
    else
      var rest := KnownFieldsFrom(body, from + 1);
      if IsColumn(body[from].0) then [body[from]] + rest else rest
  }

  /** `stripUnknown`: the known keys of the body, in the body's order. The
      i-th kept entry is the body's entry at the i-th known position. */
  function KnownFields(body: Body): (r: Body)
    ensures |r| == |KnownPositions(body, 0)|
    ensures forall k :: 0 <= k < |r| ==> r[k] == body[KnownPositions(body, 0)[k]]
    ensures |r| <= |body|
    ensures forall i :: 0 <= i < |r| ==> r[i] in body && IsColumn(r[i].0)
    ensures forall i :: 0 <= i < |body| && IsColumn(body[i].0) ==> body[i] in r
    ensures DistinctKeys(body) ==> DistinctKeys(r)
  {
    var r := KnownFieldsFrom(body, 0);
    var ps := KnownPositions(body, 0);
    assert |r| <= |body| by {
      PositionsBound(ps, |body|);
    }
    assert forall i :: 0 <= i < |body| && IsColumn(body[i].0) ==> body[i] in r by {
      forall i | 0 <= i < |body| && IsColumn(body[i].0) ensures body[i] in r {
        var k :| 0 <= k < |ps| && ps[k] == i;
        assert r[k] == body[i];
      }
    }
    r
  }

  /** Strictly ascending positions below `n` number at most `n`. */
  lemma {:induction false} PositionsBound(ps: seq<nat>, n: nat)
    requires forall k :: 0 <= k < |ps| ==> ps[k] < n
    requires forall k, l :: 0 <= k < l < |ps| ==> ps[k] < ps[l]
    ensures |ps| <= n
  {
    if ps != [] {
      var last := ps[|ps| - 1];
      PositionsBound(ps[..|ps| - 1], last);
    }
  }

  /** The update schema: every known key carries a valid value, and at least
      one known key remains once unknown keys are stripped (`.min(1)`). The
      result is the body the route then reads its fields from. */
  function ValidatePatch(body: Body): (r: Outcome<Body>)
    ensures r.Err? ==> r.error == Unprocessable
    ensures r.Ok? ==> r.value == KnownFields(body) && |r.value| >= 1
    ensures r.Ok? <==> |KnownFields(body)| >= 1
                       && forall i :: 0 <= i < |body| && IsColumn(body[i].0) ==> ValidColumnValue(body[i].0, body[i].1)
  {
    var known := KnownFields(body);
    if |known| == 0 then Err(Unprocessable)
    else if exists i :: 0 <= i < |body| && IsColumn(body[i].0) && !ValidColumnValue(body[i].0, body[i].1) then
      Err(Unprocessable)
    else Ok(known)
  }

  /** `quantity: Joi.number().integer().min(1).required()`. */
  function ValidateReplenish(body: Body): (r: Outcome<int>)
    ensures r.Err? ==> r.error == Unprocessable
    ensures r.Ok? ==> r.value >= 1 && Lookup(body, "quantity") == Some(Number(r.value as real))
    ensures r.Ok? <==> Lookup(body, "quantity").Some? && IsIntegerAtLeast(Lookup(body, "quantity").value, 1)
  {
    var q := Lookup(body, "quantity");
    if q.None? || !IsIntegerAtLeast(q.value, 1) then Err(Unprocessable) else Ok(q.value.n.Floor)
  }

  // ---- the PATCH statement ----

  /** `${field} = $${index + 1}` for the field at `placeholder - 1`. */
  function Assignment(column: string, placeholder: nat): string {
    column + " = $" + JsText.Decimal(placeholder)
  }

  /** `fields.map(...)`, numbering from `first`. */
  function Assignments(columns: seq<string>, first: nat): (r: seq<string>)
    ensures |r| == |columns|
  {
    if columns == [] then [] else [Assignment(columns[0], first)] + Assignments(columns[1..], first + 1)
  }

  /** `.join(', ')`. */
  function JoinComma(pieces: seq<string>): string {
    if pieces == [] then ""
    else if |pieces| == 1 then pieces[0]
    else pieces[0] + ", " + JoinComma(pieces[1..])
  }

  function Keys(fields: Body): (ks: seq<string>)
    ensures |ks| == |fields| && forall i :: 0 <= i < |fields| ==> ks[i] == fields[i].0
  {
    if fields == [] then [] else [fields[0].0] + Keys(fields[1..])
  }

  function Values(fields: Body): (vs: seq<Json>)
    ensures |vs| == |fields| && forall i :: 0 <= i < |fields| ==> vs[i] == fields[i].1
  {
    if fields == [] then [] else [fields[0].1] + Values(fields[1..])
  }

  /** The route's `setClause`: the database reads it back as the columns
      in order, the i-th bound to placeholder `$(i+1)`. */
  function SetClause(columns: seq<string>): (clause: string)
    ensures |columns| >= 1 && (forall i :: 0 <= i < |columns| ==> IsIdentifier(columns[i])) ==>
              ParseAssignments(clause) == Some(Numbered(columns, 1))
  {
    var clause := JoinComma(Assignments(columns, 1));
    if |columns| >= 1 && (forall i :: 0 <= i < |columns| ==> IsIdentifier(columns[i])) then
      ParseSetClause(columns, 1);
      clause
    else clause
  }

  /** The statement `UPDATE resources SET <setClause>, updated_at = NOW()
      WHERE id = $<idPlaceholder>` with its parameter list. */
  datatype UpdateQuery = UpdateQuery(setClause: string, idPlaceholder: nat, params: seq<Json>)

  function PatchQuery(fields: Body, id: int): (q: UpdateQuery)
    ensures |q.params| == |fields| + 1 && q.idPlaceholder == |fields| + 1
    ensures forall i :: 0 <= i < |fields| ==> q.params[i] == fields[i].1
    ensures q.params[q.idPlaceholder - 1] == Number(id as real)
    ensures |fields| >= 1 && (forall i :: 0 <= i < |fields| ==> IsColumn(fields[i].0)) ==>
              ParseAssignments(q.setClause) == Some(Numbered(Keys(fields), 1))
  {
    ColumnKeysAreIdentifiers(fields);
    UpdateQuery(SetClause(Keys(fields)), |fields| + 1, Values(fields) + [Number(id as real)])
  }

  /** The three column names are plain identifiers. */
  lemma ColumnKeysAreIdentifiers(fields: Body)
    ensures (forall i :: 0 <= i < |fields| ==> IsColumn(fields[i].0)) ==>
              forall i :: 0 <= i < |Keys(fields)| ==> IsIdentifier(Keys(fields)[i])
  {
    assert IsIdentifier(QuantityColumn) && IsIdentifier(StatusColumn) && IsIdentifier(LocationColumn);
  }

  // ---- how the database reads the clause ----

  predicate IsIdentChar(c: char) {
    'a' <= c <= 'z' || 'A' <= c <= 'Z' || '0' <= c <= '9' || c == '_'
  }

  predicate IsIdentifier(s: string) {
    s != [] && forall i :: 0 <= i < |s| ==> IsIdentChar(s[i])
  }

  function IdentPrefix(s: string): (r: string)
    ensures |r| <= |s| && r == s[..|r|]
    ensures forall i :: 0 <= i < |r| ==> IsIdentChar(r[i])
  {
    if s != [] && IsIdentChar(s[0]) then [s[0]] + IdentPrefix(s[1..]) else []
  }

  predicate StartsWith(s: string, prefix: string) {
    |prefix| <= |s| && s[..|prefix|] == prefix
  }

  /** Reads `column = $n, column = $n, ...` into (column, n) pairs; `None`
      for any other text. */
  function ParseAssignments(s: string): (r: Option<seq<(string, nat)>>)
    ensures r.Some? ==> |r.value| >= 1 && forall i :: 0 <= i < |r.value| ==> IsIdentifier(r.value[i].0)
    decreases |s|
  {
    var column := IdentPrefix(s);
    var rest := s[|column|..];
    if column == [] || !StartsWith(rest, " = $") then None
    else
      var after := rest[4..];
      var digits := JsText.DigitPrefix(after);
      if digits == [] then None
      else
        var here := (column, JsText.DigitsValue(digits));
        var tail := after[|digits|..];
        if tail == [] then Some([here])
        else if !StartsWith(tail, ", ") then None
        else
          match ParseAssignments(tail[2..])
          case None => None
          case Some(more) => Some([here] + more)
  }

  /** The i-th column paired with placeholder `first + i`. */
  function Numbered(columns: seq<string>, first: nat): (r: seq<(string, nat)>)
    ensures |r| == |columns| && forall i :: 0 <= i < |columns| ==> r[i] == (columns[i], first + i)
  {
    if columns == [] then [] else [(columns[0], first)] + Numbered(columns[1..], first + 1)
  }

  lemma {:induction false} IdentPrefixOf(column: string, rest: string)
    requires IsIdentifier(column) || column == []
    requires rest == [] || !IsIdentChar(rest[0])
    ensures IdentPrefix(column + rest) == column
  {
    if column != [] {
      assert (column + rest)[1..] == column[1..] + rest;
      IdentPrefixOf(column[1..], rest);
    }
  }

  /** A column name followed by a non-identifier character is read back
      whole, and the text after it is what followed it. */
  lemma ColumnHead(column: string, rest: string)
    requires IsIdentifier(column)
    requires rest != [] && !IsIdentChar(rest[0])
    ensures IdentPrefix(column + rest) == column
    ensures (column + rest)[|column|..] == rest
  {
    IdentPrefixOf(column, rest);
  }

  /** A placeholder number followed by `,` or nothing is read back whole. */
  lemma PlaceholderDigits(n: nat, tail: string)
    requires tail == [] || tail[0] == ','
    ensures JsText.DigitPrefix(JsText.Decimal(n) + tail) == JsText.Decimal(n)
    ensures JsText.DigitsValue(JsText.Decimal(n)) == n
    ensures (JsText.Decimal(n) + tail)[|JsText.Decimal(n)|..] == tail
  {
    JsText.DigitPrefixOfDigits(JsText.Decimal(n), tail);
    JsText.DigitsValueOfDecimal(n);
  }

  lemma ParseOneAssignment(column: string, n: nat, tail: string)
    requires IsIdentifier(column)
    requires tail == [] || tail[0] == ','
    ensures var s := Assignment(column, n) + tail;
            var after := s[|column| + 4..];
            && IdentPrefix(s) == column && StartsWith(s[|column|..], " = $")
            && JsText.DigitPrefix(after) == JsText.Decimal(n)
            && JsText.DigitsValue(JsText.Decimal(n)) == n
            && after[|JsText.Decimal(n)|..] == tail
  {
    var d := JsText.Decimal(n);
    var rest := " = $" + d + tail;
    assert Assignment(column, n) + tail == column + rest;
    ColumnHead(column, rest);
    assert rest[..4] == " = $" && rest[4..] == d + tail;
    PlaceholderDigits(n, tail);
  }

  /** One assignment read back: the parse continues after `, `, and ends
      at the end of the text. */
  lemma ParseStep(column: string, n: nat, rest: string)
    requires IsIdentifier(column)
    ensures ParseAssignments(Assignment(column, n)) == Some([(column, n)])
    ensures ParseAssignments(Assignment(column, n) + (", " + rest)) ==
              match ParseAssignments(rest)
              case None => None
              case Some(more) => Some([(column, n)] + more)
  {
    ParseOneAssignment(column, n, "");
    assert Assignment(column, n) + "" == Assignment(column, n);
    var tail := ", " + rest;
    ParseOneAssignment(column, n, tail);
    assert StartsWith(tail, ", ") && tail[2..] == rest;
  }

  /** Round trip: the database reads the route's clause back as the body's
      columns, the i-th bound to placeholder `first + i`. */
  lemma {:induction false} ParseSetClause(columns: seq<string>, first: nat)
    requires |columns| >= 1
    requires forall i :: 0 <= i < |columns| ==> IsIdentifier(columns[i])
    ensures ParseAssignments(JoinComma(Assignments(columns, first))) == Some(Numbered(columns, first))
  {
    var a := Assignments(columns, first);
    assert a[0] == Assignment(columns[0], first);
    ParseStep(columns[0], first, JoinComma(Assignments(columns[1..], first + 1)));
    if |columns| > 1 {
      assert a[1..] == Assignments(columns[1..], first + 1);
      assert JoinComma(a) == Assignment(columns[0], first) + (", " + JoinComma(a[1..]));
      ParseSetClause(columns[1..], first + 1);
      assert Numbered(columns, first) == [(columns[0], first)] + Numbered(columns[1..], first + 1);
    } else {
      assert Numbered(columns, first) == [(columns[0], first)];
    }
  }

  /** `SET column = value` for one column, as the database coerces the
      bound value; `None` where it would raise an error. */
  function SetColumn(row: Resource, column: string, v: Json): (next: Option<Resource>)
    ensures next.Some? ==> SameIdentity(next.value, row)
    ensures IsColumn(column) && ValidColumnValue(column, v) ==>
              && next.Some?
              && ColumnValue(next.value, column) == v
              && forall other :: other != column ==> ColumnValue(next.value, other) == ColumnValue(row, other)
  {
    if column == QuantityColumn && IsInteger(v) then Some(row.(quantityAvailable := v.n.Floor))
    else if column == StatusColumn && v.Text? && StatusNamed(v.s).Some? then Some(row.(status := StatusNamed(v.s).value))
    else if column == LocationColumn && v.Null? then Some(row.(storageLocationId := None))
    else if column == LocationColumn && IsInteger(v) then Some(row.(storageLocationId := Some(v.n.Floor)))
    else None
  }

  /** The `SET` list applied to a row, each placeholder `$n` reading the
      n-th parameter. */
  function RunAssignments(row: Resource, asg: seq<(string, nat)>, params: seq<Json>): (r: Option<Resource>)
    ensures r.Some? ==> SameIdentity(r.value, row)
    decreases |asg|
  {
    if asg == [] then Some(row)
    else if !(1 <= asg[0].1 <= |params|) then None
    else
      match SetColumn(row, asg[0].0, params[asg[0].1 - 1])
      case None => None
      case Some(next) => RunAssignments(next, asg[1..], params)
  }

  /** The body's fields assigned to the row one after the other. */
  function ApplyFields(row: Resource, fields: Body): (r: Option<Resource>)
    ensures r.Some? ==> SameIdentity(r.value, row)
    decreases |fields|
  {
    if fields == [] then Some(row)
    else
      match SetColumn(row, fields[0].0, fields[0].1)
      case None => None
      case Some(next) => ApplyFields(next, fields[1..])
  }

  /** Binding the parameters by placeholder does what assigning the fields
      directly does. */
  lemma {:induction false} RunNumbered(row: Resource, fields: Body, first: nat, params: seq<Json>)
    requires 1 <= first && first - 1 + |fields| <= |params|
    requires forall i :: 0 <= i < |fields| ==> params[first - 1 + i] == fields[i].1
    ensures RunAssignments(row, Numbered(Keys(fields), first), params) == ApplyFields(row, fields)
    decreases |fields|
  {
    if fields != [] {
      var asg := Numbered(Keys(fields), first);
      assert asg[0] == (fields[0].0, first);
      assert asg[1..] == Numbered(Keys(fields[1..]), first + 1);
      match SetColumn(row, fields[0].0, fields[0].1)
      case None =>
      case Some(next) =>
        RunNumbered(next, fields[1..], first + 1, params);
    }
  }

  /** A column of a row as the JSON value that would set it. */
  function ColumnValue(row: Resource, column: string): Json {
    if column == QuantityColumn then Number(row.quantityAvailable as real)
    else if column == StatusColumn then Text(StatusName(row.status))
    else if column == LocationColumn then
      (if row.storageLocationId.None? then Null else Number(row.storageLocationId.value as real))
    else Null
  }

  /** The columns no PATCH can reach. */
  predicate SameIdentity(a: Resource, b: Resource) {
    a.id == b.id && a.resourceType == b.resourceType && a.updatedAt == b.updatedAt
  }

  /** The UPDATE changes exactly the columns the body names, to the values
      it gives, and nothing else. */
  lemma {:induction false} ApplyFieldsSpec(row: Resource, fields: Body)
    requires DistinctKeys(fields)
    requires forall i :: 0 <= i < |fields| ==> IsColumn(fields[i].0) && ValidColumnValue(fields[i].0, fields[i].1)
    ensures ApplyFields(row, fields).Some?
    ensures SameIdentity(ApplyFields(row, fields).value, row)
    ensures forall column :: ColumnValue(ApplyFields(row, fields).value, column) ==
              if Lookup(fields, column).Some? then Lookup(fields, column).value else ColumnValue(row, column)
    decreases |fields|
  {
    if fields != [] {
      var (k, v) := fields[0];
      var next := SetColumn(row, k, v).value;
      assert DistinctKeys(fields[1..]);
      ApplyFieldsSpec(next, fields[1..]);
    }
  }

  /** A PATCH that passes validation never makes the stock negative. */
  lemma PatchKeepsStockNonNegative(row: Resource, body: Body)
    requires DistinctKeys(body) && row.quantityAvailable >= 0
    requires ValidatePatch(body).Ok?
    ensures ApplyFields(row, ValidatePatch(body).value).Some?
    ensures ApplyFields(row, ValidatePatch(body).value).value.quantityAvailable >= 0
  {
    var fields := ValidatePatch(body).value;
    ValidFieldsOfPatch(body);
    ApplyFieldsSpec(row, fields);
    var q := Lookup(fields, QuantityColumn);
    var after := ApplyFields(row, fields).value;
    assert ColumnValue(after, QuantityColumn) == Number(after.quantityAvailable as real);
    if q.Some? {
      var i :| 0 <= i < |fields| && fields[i] == (QuantityColumn, q.value);
    }
  }

  /** What validation hands the route: distinct known columns, each with a
      value its rule accepts. */
  lemma ValidFieldsOfPatch(body: Body)
    requires DistinctKeys(body) && ValidatePatch(body).Ok?
    ensures var fields := ValidatePatch(body).value;
            && DistinctKeys(fields)
            && forall i :: 0 <= i < |fields| ==> IsColumn(fields[i].0) && ValidColumnValue(fields[i].0, fields[i].1)
  {
    var fields := ValidatePatch(body).value;
    forall i | 0 <= i < |fields| ensures IsColumn(fields[i].0) && ValidColumnValue(fields[i].0, fields[i].1) {
      assert fields[i] in body;
    }
  }

  /** The row the PATCH statement writes: the clause read back, bound to
      the parameters, applied to the stored row. */
  lemma PatchStatementApplies(row: Resource, fields: Body, id: int)
    requires |fields| >= 1 && forall i :: 0 <= i < |fields| ==> IsColumn(fields[i].0)
    ensures var q := PatchQuery(fields, id);
            && ParseAssignments(q.setClause) == Some(Numbered(Keys(fields), 1))
            && RunAssignments(row, Numbered(Keys(fields), 1), q.params) == ApplyFields(row, fields)
            && q.params[q.idPlaceholder - 1] == Number(id as real)
  {
    var ks := Keys(fields);
    forall i | 0 <= i < |ks| ensures IsIdentifier(ks[i]) {
      assert IsColumn(ks[i]);
    }
    ParseSetClause(ks, 1);
    RunNumbered(row, fields, 1, PatchQuery(fields, id).params);
  }

  /** What the PATCH statement does to the stored row once the body has
      passed validation: the clause parses, binds to the parameters, and
      writes a row whose stock is still non-negative. */
  lemma PatchStatementWrites(row: Resource, body: Body, id: int)
    requires DistinctKeys(body) && row.quantityAvailable >= 0 && ValidatePatch(body).Ok?
    ensures var fields := ValidatePatch(body).value;
            var q := PatchQuery(fields, id);
            && q.params[q.idPlaceholder - 1] == Number(id as real)
            && ParseAssignments(q.setClause).Some?
            && RunAssignments(row, ParseAssignments(q.setClause).value, q.params) == ApplyFields(row, fields)
            && ApplyFields(row, fields).Some?
            && ApplyFields(row, fields).value.id == row.id
            && ApplyFields(row, fields).value.quantityAvailable >= 0
  {
    var fields := ValidatePatch(body).value;
    ValidFieldsOfPatch(body);
    PatchStatementApplies(row, fields, id);
    PatchKeepsStockNonNegative(row, body);
    ApplyFieldsSpec(row, fields);
  }

  // ---- the table ----

  class ResourceTable {
    var rows: map<int, Resource>
    var nextId: int

    /** Each row sits under its own id, ids come from the sequence, and no
        stock is negative. */
    ghost predicate Valid()
      reads this
    {
      forall id :: id in rows ==> rows[id].id == id && id < nextId && rows[id].quantityAvailable >= 0
    }

    constructor ()
      ensures Valid() && rows == map[] && nextId == 1
    {
      rows := map[];
      nextId := 1;
    }

    /** `POST /resources`: the validated row under the next id, or 422 and
        no change. */
    method Create(body: Body, now: int) returns (r: Outcome<Resource>)
      requires Valid()
      modifies this
      ensures Valid()
      ensures ValidateCreate(body).Err? ==> r == Err(Unprocessable) && rows == old(rows) && nextId == old(nextId)
      ensures ValidateCreate(body).Ok? ==>
                var n := ValidateCreate(body).value;
                && r == Ok(Resource(old(nextId), n.resourceType, n.quantityAvailable, n.status, n.storageLocationId, now))
                && old(nextId) !in old(rows)
                && rows == old(rows)[old(nextId) := r.value] && nextId == old(nextId) + 1
    {
      var v := ValidateCreate(body);
      if v.Err? {
        return Err(Unprocessable);
      }
      var n := v.value;
      var row := Resource(nextId, n.resourceType, n.quantityAvailable, n.status, n.storageLocationId, now);
      rows := rows[nextId := row];
      nextId := nextId + 1;
      r := Ok(row);
    }

    /** `PATCH /resources/:id`: the statement is built from the validated
        body, its `SET` list is applied to the row found through the last
        placeholder, and `updated_at` is stamped; 422 or 404 change nothing. */
    method Patch(id: int, body: Body, now: int) returns (r: Outcome<Resource>)
      requires Valid() && DistinctKeys(body)
      modifies this
      ensures Valid() && nextId == old(nextId)
      ensures ValidatePatch(body).Err? ==> r == Err(Unprocessable) && rows == old(rows)
      ensures ValidatePatch(body).Ok? && id !in old(rows) ==>
                r == Err(NotFound("Resource not found")) && rows == old(rows)
      ensures ValidatePatch(body).Ok? && id in old(rows) ==>
                && ApplyFields(old(rows)[id], ValidatePatch(body).value).Some?
                && r == Ok(ApplyFields(old(rows)[id], ValidatePatch(body).value).value.(updatedAt := now))
                && rows == old(rows)[id := r.value]
    {
      var v := ValidatePatch(body);
      if v.Err? {
        return Err(Unprocessable);
      }
      if id !in rows {
        return Err(NotFound("Resource not found"));
      }
      var q := PatchQuery(v.value, id);
      PatchStatementWrites(rows[id], body, id);
      // the statement's last placeholder selects the row, its SET list rewrites it
      var assignments := ParseAssignments(q.setClause).value;
      var updated := RunAssignments(rows[id], assignments, q.params).value;
      var row := updated.(updatedAt := now);
      rows := rows[id := row];
      r := Ok(row);
    }

    /** `POST /resources/:id/replenish`: the stock grows by exactly the
        quantity and the status becomes Available whatever it was; 422 or
        404 change nothing. */
    method Replenish(id: int, body: Body, now: int) returns (r: Outcome<Resource>)
      requires Valid()
      modifies this
      ensures Valid() && nextId == old(nextId)
      ensures ValidateReplenish(body).Err? ==> r == Err(Unprocessable) && rows == old(rows)
      ensures ValidateReplenish(body).Ok? && id !in old(rows) ==>
                r == Err(NotFound("Resource not found")) && rows == old(rows)
      ensures ValidateReplenish(body).Ok? && id in old(rows) ==>
                var before := old(rows)[id];
                && r == Ok(before.(quantityAvailable := before.quantityAvailable + ValidateReplenish(body).value,
                                   status := Available, updatedAt := now))
                && rows == old(rows)[id := r.value]
    {
      var v := ValidateReplenish(body);
      if v.Err? {
        return Err(Unprocessable);
      }
      if id !in rows {
        return Err(NotFound("Resource not found"));
      }
      var before := rows[id];
      var row := before.(quantityAvailable := before.quantityAvailable + v.value, status := Available, updatedAt := now);
      rows := rows[id := row];
      r := Ok(row);
    }
  }

  // ---- GET /resources/low-stock ----

  /** A row of `resource_alerts`; the time may be NULL. */
  datatype Alert = Alert(resourceId: int, alertedAt: Option<int>)

  datatype LowStockRow = LowStockRow(
    id: int,
    resourceType: string,
    quantityAvailable: int,
    lastAlertedAt: int,
    storageName: Option<string>)

  predicate AlertFor(a: Alert, resourceId: int) {
    a.resourceId == resourceId
  }

  /** The row `ORDER BY alerted_at DESC LIMIT 1` picks among a resource's
      alerts: `None` when it has none; a NULL time, which PostgreSQL sorts
      first in descending order, when any alert lacks one; the latest time
      otherwise. */
  function LatestAlert(alerts: seq<Alert>, resourceId: int): (top: Option<Option<int>>)
    ensures top.None? <==> forall i :: 0 <= i < |alerts| ==> !AlertFor(alerts[i], resourceId)
    ensures top == Some(None) <==>
              exists i :: 0 <= i < |alerts| && AlertFor(alerts[i], resourceId) && alerts[i].alertedAt.None?
    ensures top.Some? && top.value.Some? ==>
              && (exists i :: 0 <= i < |alerts| && AlertFor(alerts[i], resourceId) && alerts[i].alertedAt == top.value)
              && (forall i :: 0 <= i < |alerts| && AlertFor(alerts[i], resourceId) ==>
                    alerts[i].alertedAt.Some? && alerts[i].alertedAt.value <= top.value.value)
  {
    if alerts == [] then None
    else
      var rest := LatestAlert(alerts[1..], resourceId);
      var a := alerts[0];
      if !AlertFor(a, resourceId) then rest
      else if rest.None? then Some(a.alertedAt)
      else if a.alertedAt.None? || rest.value.None? then Some(None)
      else if a.alertedAt.value >= rest.value.value then Some(a.alertedAt)
      else rest
  }

  /** `COALESCE(last_alert.alerted_at, base.updated_at)`: the latest alert's
      time, or the row's `updated_at` when it has no alert (or one without
      a time). */
  function LastAlertedAt(base: Resource, alerts: seq<Alert>): (t: int)
    ensures (forall i :: 0 <= i < |alerts| ==> !AlertFor(alerts[i], base.id)) ==> t == base.updatedAt
    ensures (exists i :: 0 <= i < |alerts| && AlertFor(alerts[i], base.id) && alerts[i].alertedAt.None?) ==>
              t == base.updatedAt
    ensures (exists i :: 0 <= i < |alerts| && AlertFor(alerts[i], base.id))
            && (forall i :: 0 <= i < |alerts| && AlertFor(alerts[i], base.id) ==> alerts[i].alertedAt.Some?) ==>
              && (exists i :: 0 <= i < |alerts| && AlertFor(alerts[i], base.id) && alerts[i].alertedAt == Some(t))
              && (forall i :: 0 <= i < |alerts| && AlertFor(alerts[i], base.id) ==> alerts[i].alertedAt.value <= t)
  {
    match LatestAlert(alerts, base.id)
    case Some(Some(at)) => at
    case _ => base.updatedAt
  }

  /** Ascending `resource_type`. */
  predicate TypeNotAfter(a: LowStockRow, b: LowStockRow) {
    Ordering.TextAtMost(a.resourceType, b.resourceType)
  }

  function LowStockRowOf(base: Resource, alerts: seq<Alert>, locations: map<int, StorageLocation>): LowStockRow {
    LowStockRow(base.id, base.resourceType, base.quantityAvailable, LastAlertedAt(base, alerts),
                if base.storageLocationId.Some? && base.storageLocationId.value in locations
                then Some(locations[base.storageLocationId.value].name) else None)
  }

  /** The view's rows joined to their resource (rows without one drop out),
      in the view's order. */
  function LowStockRows(view: seq<int>, resources: map<int, Resource>, alerts: seq<Alert>,
                        locations: map<int, StorageLocation>): seq<LowStockRow>
  {
    if view == [] then []
    else
      var rest := LowStockRows(view[1..], resources, alerts, locations);
      if view[0] in resources then [LowStockRowOf(resources[view[0]], alerts, locations)] + rest else rest
  }

  /** `GET /resources/low-stock`: the view's rows reordered by resource
      type, nothing added or dropped. */
  function LowStock(view: seq<int>, resources: map<int, Resource>, alerts: seq<Alert>,
                    locations: map<int, StorageLocation>): (out: seq<LowStockRow>)
    ensures Ordering.Sorted(out, TypeNotAfter)
    ensures multiset(out) == multiset(LowStockRows(view, resources, alerts, locations))
  {
    var rows := LowStockRows(view, resources, alerts, locations);
    TypeNotAfterIsTotalPreorder();
    Ordering.SortBySorted(rows, TypeNotAfter);
    Ordering.SortByPermutes(rows, TypeNotAfter);
    Ordering.SortBy(rows, TypeNotAfter)
  }

  lemma TypeNotAfterIsTotalPreorder()
    ensures Ordering.TotalPreorder(TypeNotAfter)
  {
    Ordering.TextAtMostIsTotalPreorder();
  }

  lemma {:induction false} LowStockRowsMembers(view: seq<int>, resources: map<int, Resource>, alerts: seq<Alert>,
                                               locations: map<int, StorageLocation>, row: LowStockRow)
    ensures row in LowStockRows(view, resources, alerts, locations) <==>
              exists id :: id in view && id in resources && row == LowStockRowOf(resources[id], alerts, locations)
  {
    if view != [] {
      LowStockRowsMembers(view[1..], resources, alerts, locations, row);
      assert forall id :: id in view <==> id == view[0] || id in view[1..];
    }
  }

  /** The listing is ordered by resource type; it holds exactly the view's
      resources, each with its own type, stock and `last_alerted_at`. */
  lemma LowStockSpec(view: seq<int>, resources: map<int, Resource>, alerts: seq<Alert>,
                     locations: map<int, StorageLocation>)
    ensures var out := LowStock(view, resources, alerts, locations);
            && Ordering.Sorted(out, TypeNotAfter)
            && (forall row :: row in out <==>
                  exists id :: id in view && id in resources && row == LowStockRowOf(resources[id], alerts, locations))
            && multiset(out) == multiset(LowStockRows(view, resources, alerts, locations))
  {
    var rows := LowStockRows(view, resources, alerts, locations);
    TypeNotAfterIsTotalPreorder();
    Ordering.SortBySorted(rows, TypeNotAfter);
    Ordering.SortByPermutes(rows, TypeNotAfter);
    forall row ensures row in LowStock(view, resources, alerts, locations) <==>
                 exists id :: id in view && id in resources && row == LowStockRowOf(resources[id], alerts, locations)
    {
      Ordering.SortByMembers(rows, TypeNotAfter, row);
      LowStockRowsMembers(view, resources, alerts, locations, row);
    }
  }
}
