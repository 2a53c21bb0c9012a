/** Id generation, identical in both repositories: the query
    `SELECT MAX(CAST(SUBSTR(id, 8) AS INTEGER)) FROM sensors WHERE id LIKE 'sensor-%'`
    followed by "sensor-" and the next number formatted with `%03d`. */
module IdGen {
  import opened Wrappers
  import opened Text
  import opened Sqlite
  import opened Table

  /** The numbers the query's MAX ranges over: one per id matching the pattern. */
  function SuffixNumbers(store: Store): set<int> {
    set id | id in store && LikeSensorPattern(id) :: CastToInteger(Substr8(id))
  }

  /** A non-empty set has a member; stated as a lemma because the verifier does
      not draw the existential from `s != {}` by itself, and `:|` needs it. */
  lemma NonEmptyHasElement(s: set<int>)
    requires s != {}
    ensures exists x :: x in s
  {
    if forall x :: x !in s {
      assert false;
    }
  }

  lemma {:induction false} MaxExists(s: set<int>)
    requires s != {}
    ensures exists m :: m in s && forall x :: x in s ==> x <= m
    decreases |s|
  {
    NonEmptyHasElement(s);
    var x :| x in s;
    var rest := s - {x};
    if rest == {} {
      assert s == {x};
      assert forall y :: y in s ==> y <= x;
    } else {
      MaxExists(rest);
      var m :| m in rest && forall y :: y in rest ==> y <= m;
      if m < x {
        assert forall y :: y in s ==> y == x || y in rest;
        assert forall y :: y in s ==> y <= x;
      } else {
        assert forall y :: y in s ==> y == x || y in rest;
        assert forall y :: y in s ==> y <= m;
      }
    }
  }

  /** SQL's MAX aggregate: NULL over no rows, otherwise the largest value. */
  function Max(s: set<int>): (r: Option<int>)
    ensures r.None? <==> s == {}
    ensures r.Some? ==> r.value in s && forall x :: x in s ==> x <= r.value
  {
    if s == {} then None
    else
      MaxExists(s);
      var m :| m in s && forall x :: x in s ==> x <= m; Some(m)
  }

  /** Go: `nextNum := 1`, replaced by `maxNum + 1` when the MAX is not NULL. */
  function GoNextNumber(store: Store): int {
    match Max(SuffixNumbers(store))
    case None => 1
    case Some(m) => m + 1
  }

  /** Python: `(max_num or 0) + 1`, where both NULL and 0 read as 0. */
  function PyNextNumber(store: Store): int {
    var maxNum := Max(SuffixNumbers(store));
    (if maxNum.None? || maxNum.value == 0 then 0 else maxNum.value) + 1
  }

  /** `fmt.Sprintf("sensor-%03d", n)` and `f"sensor-{n:03d}"`. */
  function SensorId(n: int): string {
    SensorPrefix + Format03(n)
  }

  /** The id a create assigns to its new row. */
  function NextId(store: Store): string {
    SensorId(GoNextNumber(store))
  }

  /** Both services compute the same next number, whatever the table holds. */
  lemma NextNumbersAgree(store: Store)
    ensures PyNextNumber(store) == GoNextNumber(store)
  {
  }

  /** A generated id matches the pattern and its suffix reads back as n. */
  lemma SensorIdParses(n: int)
    ensures LikeSensorPattern(SensorId(n))
    ensures CastToInteger(Substr8(SensorId(n))) == n
  {
    var id := SensorId(n);
    assert id[..7] == SensorPrefix;
    LowerOfLowerCase(SensorPrefix);
    assert Substr8(id) == Format03(n);
    CastFormatRoundTrip(n);
  }

  /** The number in a generated id is strictly above the number of every
      matching id already stored. */
  lemma NextIdAboveAll(store: Store)
    ensures CastToInteger(Substr8(NextId(store))) == GoNextNumber(store)
    ensures forall id :: id in store && LikeSensorPattern(id) ==>
              CastToInteger(Substr8(id)) < GoNextNumber(store)
  {
    SensorIdParses(GoNextNumber(store));
    forall id | id in store && LikeSensorPattern(id)
      ensures CastToInteger(Substr8(id)) < GoNextNumber(store)
    {
      assert CastToInteger(Substr8(id)) in SuffixNumbers(store);
    }
  }

  /** Freshness: the generated id is never already a key of the table. */
  lemma NextIdFresh(store: Store)
    ensures NextId(store) !in store
  {
    var id := NextId(store);
    NextIdAboveAll(store);
    SensorIdParses(GoNextNumber(store));
  }

  /** With no id matching the pattern, numbering starts at sensor-001. */
  lemma FirstId(store: Store)
    requires forall id :: id in store ==> !LikeSensorPattern(id)
    ensures NextId(store) == "sensor-001"
  {
    assert SuffixNumbers(store) == {};
    assert GoNextNumber(store) == 1;
    assert Decimal(1) == "1";
    assert ZeroPad("1", 3) == ZeroPad("01", 3) == "001";
  }

  /** While the largest number stays below 999, ids keep the shape sensor-NNN. */
  lemma NextIdShape(store: Store)
    requires forall n :: n in SuffixNumbers(store) ==> 0 <= n < 999
    ensures |NextId(store)| == 10
    ensures NextId(store)[..7] == SensorPrefix && AllDigits(NextId(store)[7..])
  {
    var n := GoNextNumber(store);
    Format03ThreeDigits(n);
    assert NextId(store)[7..] == Format03(n);
  }
}
