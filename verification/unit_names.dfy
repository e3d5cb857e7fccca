/** Unit names: the printer and parser of internal/slot/manager.go, and the independent parser of
    internal/systemd/backend.go. */
module UnitNames {
  import opened Basics
  import opened Digits
  import SlotModel

  const UNIT_PREFIX := "tentacle-"
  const UNIT_SUFFIX := ".service"

  predicate HasPrefix(s: string, p: string) { |p| <= |s| && s[..|p|] == p }

  predicate HasSuffix(s: string, p: string) { |p| <= |s| && s[|s| - |p|..] == p }

  function TrimPrefix(s: string, p: string): string { if HasPrefix(s, p) then s[|p|..] else s }

  function TrimSuffix(s: string, p: string): string { if HasSuffix(s, p) then s[..|s| - |p|] else s }

  // ------------------------------------------------------------------ the slot table's side

  /** The ID of slot number n, `%04d`. */
  function PrintID(n: nat): string { Fixed(n, 4) }

  predicate ValidID(id: string) { |id| == 4 && AllDigits(id) && 1 <= Number(id) <= SlotModel.MAX_SLOT_ID }

  /** Four digits are a number below ten thousand, and zero only if they are all zeros. */
  lemma FourDigits(id: string)
    requires |id| == 4
    ensures AllDigits(id) <==> forall i | 0 <= i < 4 :: 48 <= id[i] as int <= 57
    ensures AllDigits(id) ==> Number(id) <= 9999 && (Number(id) == 0 <==> id == "0000")
  {
    if AllDigits(id) {
      var a, b, c := id[..3], id[..2], id[..1];
      assert a[..2] == b && b[..1] == c && c[..0] == "";
      assert Number(c) == c[0] as int - 48;
      assert Number(b) == 10 * Number(c) + (id[1] as int - 48);
      assert Number(a) == 10 * Number(b) + (id[2] as int - 48);
      assert Number(id) == 10 * Number(a) + (id[3] as int - 48);
      assert id == "0000" <==> id[0] == '0' && id[1] == '0' && id[2] == '0' && id[3] == '0';
    }
  }

  /** validID: one pass over the digits. */
  method CheckID(id: string) returns (ok: bool)
    ensures ok <==> ValidID(id)
    ensures ok <==> |id| == 4 && (forall i | 0 <= i < 4 :: 48 <= id[i] as int <= 57) && id != "0000"
  {
    if |id| != 4 {
      return false;
    }
    FourDigits(id);
    var n := 0;
    for i := 0 to |id|
      invariant AllDigits(id[..i]) && n == Number(id[..i])
    {
      assert id[..i + 1][..i] == id[..i] && id[..i + 1][i] == id[i];
      if id[i] < '0' || id[i] > '9' {
        return false;
      }
      n := n * 10 + (id[i] as int - '0' as int);
    }
    assert id[..|id|] == id;
    ok := n >= 1 && n <= SlotModel.MAX_SLOT_ID;
  }

  /** The valid IDs are exactly the printed slot numbers. */
  lemma IDsArePrintedNumbers(id: string)
    ensures ValidID(id) <==> exists n: nat | 1 <= n <= SlotModel.MAX_SLOT_ID :: PrintID(n) == id
  {
    if ValidID(id) {
      PrintsBack(id);
      assert PrintID(Number(id)) == id;
    }
    forall n: nat | 1 <= n <= SlotModel.MAX_SLOT_ID && PrintID(n) == id ensures ValidID(id) {
      assert Pow10(4) == 10000;
      ReadsBack(n, 4);
    }
  }

  function UnitName(namespace: string, id: string): string {
    UNIT_PREFIX + namespace + "-" + id + UNIT_SUFFIX
  }

  function IdFromUnit(namespace: string, unit: string): Option<string> {
    var prefix := UNIT_PREFIX + namespace + "-";
    if !HasPrefix(unit, prefix) || !HasSuffix(unit, UNIT_SUFFIX) then None
    else
      var id := TrimSuffix(TrimPrefix(unit, prefix), UNIT_SUFFIX);
      if ValidID(id) then Some(id) else None
  }

  // ------------------------------------------------------------------ systemd's side

  predicate NamespaceChar(c: char) { '0' <= c <= '9' || 'a' <= c <= 'z' || c == '-' }

  /** The language of the configured pool IDs, `[a-z0-9][a-z0-9-]{0,31}`. */
  predicate PoolID(s: string) {
    1 <= |s| <= 32 && s[0] != '-' && forall i | 0 <= i < |s| :: NamespaceChar(s[i])
  }

  /** validNamespace accepts exactly the pool IDs. */
  method ValidNamespace(s: string) returns (ok: bool)
    ensures ok <==> PoolID(s)
    ensures ok ==> 1 <= |s| <= 32 && s[0] as int != 45
    ensures ok ==> forall i | 0 <= i < |s| :: 48 <= s[i] as int <= 57 || 97 <= s[i] as int <= 122 || s[i] as int == 45
    ensures !ok ==>
      || |s| == 0 || |s| > 32 || s[0] as int == 45
      || exists i | 0 <= i < |s| ::
           s[i] as int < 45 || 45 < s[i] as int < 48 || 57 < s[i] as int < 97 || s[i] as int > 122
  {
    if |s| == 0 || |s| > 32 {
      return false;
    }
    for i := 0 to |s|
      invariant i > 0 ==> s[0] != '-'
      invariant forall j | 0 <= j < i :: NamespaceChar(s[j])
    {
      var isDigit := '0' <= s[i] <= '9';
      var isLower := 'a' <= s[i] <= 'z';
      if !isDigit && !isLower && (i == 0 || s[i] != '-') {
        return false;
      }
    }
    ok := true;
  }

  /** The position of the last dash, or -1. */
  function LastDash(s: string): (k: int)
    ensures -1 <= k < |s|
    ensures k >= 0 ==> s[k] == '-'
    ensures forall i | k < i < |s| :: s[i] != '-'
  {
    if s == "" then -1
    else if s[|s| - 1] == '-' then |s| - 1
    else LastDash(s[..|s| - 1])
  }

  function NamespaceFromUnit(unit: string): Option<string> {
    if !HasPrefix(unit, UNIT_PREFIX) || !HasSuffix(unit, UNIT_SUFFIX) then None
    else
      var body := TrimSuffix(TrimPrefix(unit, UNIT_PREFIX), UNIT_SUFFIX);
      var separator := LastDash(body);
      if separator <= 0 || separator == |body| - 1 then None
      else if !PoolID(body[..separator]) || !AllDigits(body[separator + 1..]) then None
      else Some(body[..separator])
  }

  predicate ValidUnit(namespace: string, unit: string) {
    NamespaceFromUnit(unit) == Some(namespace)
  }

  // ------------------------------------------------------------------ printing and parsing

  lemma BodyOf(namespace: string, tail: string)
    ensures var unit := UNIT_PREFIX + namespace + "-" + tail + UNIT_SUFFIX;
      && HasPrefix(unit, UNIT_PREFIX) && HasSuffix(unit, UNIT_SUFFIX)
      && TrimSuffix(TrimPrefix(unit, UNIT_PREFIX), UNIT_SUFFIX) == namespace + "-" + tail
      && HasPrefix(unit, UNIT_PREFIX + namespace + "-")
      && TrimSuffix(TrimPrefix(unit, UNIT_PREFIX + namespace + "-"), UNIT_SUFFIX) == tail
  {
    var unit := UNIT_PREFIX + namespace + "-" + tail + UNIT_SUFFIX;
    var body := namespace + "-" + tail;
    assert unit == UNIT_PREFIX + (body + UNIT_SUFFIX);
    assert unit[|UNIT_PREFIX|..] == body + UNIT_SUFFIX;
    assert (body + UNIT_SUFFIX)[|body|..] == UNIT_SUFFIX;
    assert unit[|unit| - |UNIT_SUFFIX|..] == UNIT_SUFFIX;
    var prefix := UNIT_PREFIX + namespace + "-";
    assert unit == prefix + (tail + UNIT_SUFFIX);
    assert unit[|prefix|..] == tail + UNIT_SUFFIX;
    assert (tail + UNIT_SUFFIX)[|tail|..] == UNIT_SUFFIX;
  }

  lemma {:induction false} LastDashBefore(namespace: string, tail: string)
    requires AllDigits(tail)
    ensures LastDash(namespace + "-" + tail) == |namespace|
  {
    var body := namespace + "-" + tail;
    if tail == "" {
      assert body[|body| - 1] == '-';
    } else {
      var front := tail[..|tail| - 1];
      LastDashBefore(namespace, front);
      assert body[..|body| - 1] == namespace + "-" + front;
      assert body[|body| - 1] == tail[|tail| - 1];
    }
  }

  /** For every pool ID and every slot ID both parsers invert the printer. */
  lemma ParsersInvertPrinter(namespace: string, id: string)
    requires PoolID(namespace) && ValidID(id)
    ensures IdFromUnit(namespace, UnitName(namespace, id)) == Some(id)
    ensures ValidUnit(namespace, UnitName(namespace, id))
  {
    BodyOf(namespace, id);
    LastDashBefore(namespace, id);
    var body := namespace + "-" + id;
    assert body[..|namespace|] == namespace && body[|namespace| + 1..] == id;
  }

  /** What the slot table accepts, in any namespace, prints back to the same string. */
  lemma AcceptedPrintsBack(namespace: string, unit: string)
    requires IdFromUnit(namespace, unit).Some?
    ensures UnitName(namespace, IdFromUnit(namespace, unit).value) == unit
  {
    var prefix := UNIT_PREFIX + namespace + "-";
    var rest := TrimPrefix(unit, prefix);
    assert unit == prefix + rest;
    // A rest too short to hold the suffix would end with the suffix's last letter, no digit.
    assert unit[|unit| - 1] == UNIT_SUFFIX[|UNIT_SUFFIX| - 1] && (rest != "" ==> rest[|rest| - 1] == unit[|unit| - 1]);
    if HasSuffix(rest, UNIT_SUFFIX) {
      assert rest == rest[..|rest| - |UNIT_SUFFIX|] + UNIT_SUFFIX;
    }
  }

  /** No unit is accepted for two pools by either parser, not even when one pool's ID extends the
      other's with dashes and digits. */
  lemma PoolsStayApart(a: string, b: string, unit: string)
    ensures IdFromUnit(a, unit).Some? && IdFromUnit(b, unit).Some? ==> a == b
    ensures ValidUnit(a, unit) && ValidUnit(b, unit) ==> a == b
    ensures PoolID(a) && IdFromUnit(a, unit).Some? && ValidUnit(b, unit) ==> a == b
  {
    if IdFromUnit(a, unit).Some? {
      var id := IdFromUnit(a, unit).value;
      AcceptedPrintsBack(a, unit);
      if IdFromUnit(b, unit).Some? {
        AcceptedPrintsBack(b, unit);
        SameUnit(a, id, b, IdFromUnit(b, unit).value);
      }
      if PoolID(a) {
        ParsersInvertPrinter(a, id);
      }
    }
  }

  lemma SameUnit(a: string, i: string, b: string, j: string)
    requires |i| == |j| && UnitName(a, i) == UnitName(b, j)
    ensures a == b && i == j
  {
    var u := UnitName(a, i);
    assert u[|UNIT_PREFIX|..|UNIT_PREFIX| + |a|] == a;
    assert |a| == |b|;
    assert UnitName(b, j)[|UNIT_PREFIX|..|UNIT_PREFIX| + |b|] == b;
    assert u[|UNIT_PREFIX| + |a| + 1..|UNIT_PREFIX| + |a| + 1 + |i|] == i;
    assert UnitName(b, j)[|UNIT_PREFIX| + |b| + 1..|UNIT_PREFIX| + |b| + 1 + |j|] == j;
  }

  /** A unit printed for one pool is never taken for another's. */
  lemma PrintedForOnePool(a: string, b: string, id: string)
    requires PoolID(a) && ValidID(id) && a != b
    ensures IdFromUnit(b, UnitName(a, id)).None? && !ValidUnit(b, UnitName(a, id))
  {
    ParsersInvertPrinter(a, id);
    PoolsStayApart(a, b, UnitName(a, id));
  }

  /** Where the parsers differ: systemd's takes any number of digits. The slot table accepts a
      unit of a pool if and only if systemd's parser does and the digits are a slot ID. */
  lemma ParsersAgree(namespace: string, unit: string)
    requires PoolID(namespace)
    ensures IdFromUnit(namespace, unit).Some? <==>
      ValidUnit(namespace, unit) && exists id :: ValidID(id) && unit == UnitName(namespace, id)
  {
    if IdFromUnit(namespace, unit).Some? {
      AcceptedPrintsBack(namespace, unit);
      ParsersInvertPrinter(namespace, IdFromUnit(namespace, unit).value);
    }
    forall id | ValidID(id) && unit == UnitName(namespace, id) ensures IdFromUnit(namespace, unit).Some? {
      ParsersInvertPrinter(namespace, id);
    }
  }

  /** Digits that are no slot ID, too few, too many or zero, pass systemd's parser alone. */
  lemma OtherDigitsAreSystemdsOnly(namespace: string, digits: string)
    requires PoolID(namespace) && digits != "" && AllDigits(digits) && !ValidID(digits)
    ensures ValidUnit(namespace, UnitName(namespace, digits))
    ensures IdFromUnit(namespace, UnitName(namespace, digits)).None?
  {
    BodyOf(namespace, digits);
    LastDashBefore(namespace, digits);
    var body := namespace + "-" + digits;
    assert body[..|namespace|] == namespace && body[|namespace| + 1..] == digits;
  }

  // ------------------------------------------------------------------ Active

  predicate KnownState(s: string) {
    s in {"active", "activating", "deactivating", "reloading", "maintenance", "refreshing", "inactive", "failed"}
  }

  /** Units that stopped or failed are known too: adoption has to clean up after them. */
  lemma EightStates(s: string)
    ensures KnownState(s) <==>
      || s == "active" || s == "activating" || s == "deactivating" || s == "reloading"
      || s == "maintenance" || s == "refreshing" || s == "inactive" || s == "failed"
  {}

  /** One line of the listing, split into fields, that Active can make sense of. */
  predicate Sensible(namespace: string, fields: seq<string>) {
    fields == [] ||
    (|fields| >= 4 && NamespaceFromUnit(fields[0]).Some? && (ValidUnit(namespace, fields[0]) ==> KnownState(fields[2])))
  }

  predicate Own(namespace: string, fields: seq<string>) {
    |fields| > 0 && ValidUnit(namespace, fields[0])
  }

  function OwnUnits(namespace: string, rows: seq<seq<string>>): seq<string> {
    if rows == [] then []
    else OwnUnits(namespace, rows[..|rows| - 1]) +
         if Own(namespace, rows[|rows| - 1]) then [rows[|rows| - 1][0]] else []
  }

  /** Active's filter: of a listing it understands in full it keeps this pool's units, in order,
      whatever other pools' units the glob returned. */
  method Active(namespace: string, rows: seq<seq<string>>) returns (ok: bool, units: seq<string>)
    ensures ok <==> forall i | 0 <= i < |rows| :: Sensible(namespace, rows[i])
    ensures ok ==> units == OwnUnits(namespace, rows)
  {
    units := [];
    for i := 0 to |rows|
      invariant forall j | 0 <= j < i :: Sensible(namespace, rows[j])
      invariant units == OwnUnits(namespace, rows[..i])
    {
      assert rows[..i + 1][..i] == rows[..i];
      var fields := rows[i];
      if |fields| == 0 {
        continue;
      }
      if |fields| < 4 {
        return false, [];
      }
      var owner := NamespaceFromUnit(fields[0]);
      if owner.None? {
        return false, [];
      }
      if owner.value != namespace {
        continue;
      }
      if !KnownState(fields[2]) {
        return false, [];
      }
      units := units + [fields[0]];
    }
    assert rows[..|rows|] == rows;
    ok := true;
  }

  lemma {:induction false} OwnUnitsAreOwn(namespace: string, rows: seq<seq<string>>, unit: string)
    ensures unit in OwnUnits(namespace, rows) <==>
      exists i | 0 <= i < |rows| :: Own(namespace, rows[i]) && rows[i][0] == unit
  {
    if rows != [] {
      OwnUnitsAreOwn(namespace, rows[..|rows| - 1], unit);
      assert rows == rows[..|rows| - 1] + [rows[|rows| - 1]];
    }
  }
}
