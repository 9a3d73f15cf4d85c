/** `camelfy` and `camelfy_object` of `AppShared/utils.py`: the handlers pass
    every row they fetch through these before returning it, so that column
    names such as `hours_per_week` reach the client as `hoursPerWeek`. */
module CamelfyRows {
  import opened Options
  import opened OrderedDict
  import opened PyValues
  import AppSharedUtils
  import SnakeCamelRoundTrip

  /** The value stored for a column: dates and datetimes as their `str()`
      form, anything else as it is. */
  function StrIfDate(v: Value): (r: Value)
    ensures !IsDate(r)
    ensures IsDate(v) ==> r == PyStr(v.text)
    ensures !IsDate(v) ==> r == v
  {
    if IsDate(v) then PyStr(v.text) else v
  }

  /** The camel-cased names of the row's columns. */
  function CamelKeys(row: Dict<Value>): set<string>
  {
    set i | 0 <= i < |row| :: AppSharedUtils.ToCamel(row[i].0)
  }

  /** What `camelfy_object` builds: the columns in order, each assigned under
      its camel-cased name. Two columns with the same camel-cased name share
      one entry, at the place of the first, holding the value of the last. */
  function CamelfyEntries(row: Dict<Value>): (r: Dict<Value>)
    ensures DistinctKeys(r)
    ensures |r| <= |row|
    ensures forall k :: Get(r, k).Some? ==> !IsDate(Get(r, k).value)
  {
    if row == [] then []
    else
      var prev := CamelfyEntries(row[..|row| - 1]);
      var last := row[|row| - 1];
      PutDistinct(prev, AppSharedUtils.ToCamel(last.0), StrIfDate(last.1));
      Put(prev, AppSharedUtils.ToCamel(last.0), StrIfDate(last.1))
  }

  /** The keys of the camel-cased row are exactly the camel-cased column names. */
  lemma {:induction false} CamelfyKeys(row: Dict<Value>)
    ensures Keys(CamelfyEntries(row)) == CamelKeys(row)
  {
    if row != [] {
      var init := row[..|row| - 1];
      CamelfyKeys(init);
      var k := AppSharedUtils.ToCamel(row[|row| - 1].0);
      forall c | c in CamelKeys(row)
        ensures c in CamelKeys(init) + {k}
      {
        var i :| 0 <= i < |row| && AppSharedUtils.ToCamel(row[i].0) == c;
        if i < |row| - 1 {
          assert init[i] == row[i];
        }
      }
      forall c | c in CamelKeys(init)
        ensures c in CamelKeys(row)
      {
        var i :| 0 <= i < |init| && AppSharedUtils.ToCamel(init[i].0) == c;
        assert row[i] == init[i];
      }
    }
  }

  /** Of the columns that camel-case to the same name, the one iterated last
      gives the value. */
  lemma {:induction false} LaterColumnWins(row: Dict<Value>, j: nat)
    requires j < |row|
    requires forall i :: j < i < |row| ==>
      AppSharedUtils.ToCamel(row[i].0) != AppSharedUtils.ToCamel(row[j].0)
    ensures Get(CamelfyEntries(row), AppSharedUtils.ToCamel(row[j].0)) == Some(StrIfDate(row[j].1))
  {
    if j < |row| - 1 {
      var init := row[..|row| - 1];
      forall i | j < i < |init|
        ensures AppSharedUtils.ToCamel(init[i].0) != AppSharedUtils.ToCamel(init[j].0)
      {
        assert init[i] == row[i];
      }
      LaterColumnWins(init, j);
      assert init[j] == row[j];
    }
  }

  /** A name no column camel-cases to is absent. */
  lemma AbsentKey(row: Dict<Value>, k: string)
    requires forall i :: 0 <= i < |row| ==> AppSharedUtils.ToCamel(row[i].0) != k
    ensures Get(CamelfyEntries(row), k) == None
  {
    CamelfyKeys(row);
    KeysAt(CamelfyEntries(row), k);
  }

  /** Every column renamed in place, the reference for a row whose columns
      camel-case to distinct names. */
  function RenameEach(row: Dict<Value>): (r: Dict<Value>)
    ensures |r| == |row|
    ensures forall i :: 0 <= i < |row| ==>
      r[i] == (AppSharedUtils.ToCamel(row[i].0), StrIfDate(row[i].1))
  {
    seq(|row|, i requires 0 <= i < |row| => (AppSharedUtils.ToCamel(row[i].0), StrIfDate(row[i].1)))
  }

  lemma RenameEachSnoc(row: Dict<Value>)
    requires row != []
    ensures var last := row[|row| - 1];
      RenameEach(row) == RenameEach(row[..|row| - 1])
        + [(AppSharedUtils.ToCamel(last.0), StrIfDate(last.1))]
  {
    var init := row[..|row| - 1];
    var last := row[|row| - 1];
    var r := RenameEach(init) + [(AppSharedUtils.ToCamel(last.0), StrIfDate(last.1))];
    forall i | 0 <= i < |row|
      ensures RenameEach(row)[i] == r[i]
    {
      if i < |init| {
        assert init[i] == row[i];
      }
    }
  }

  lemma NoCollisionWithLast(row: Dict<Value>)
    requires row != []
    requires forall i, j :: 0 <= i < j < |row| ==>
      AppSharedUtils.ToCamel(row[i].0) != AppSharedUtils.ToCamel(row[j].0)
    ensures AppSharedUtils.ToCamel(row[|row| - 1].0) !in Keys(CamelfyEntries(row[..|row| - 1]))
  {
    var init := row[..|row| - 1];
    var k := AppSharedUtils.ToCamel(row[|row| - 1].0);
    CamelfyKeys(init);
    forall i | 0 <= i < |init|
      ensures AppSharedUtils.ToCamel(init[i].0) != k
    {
      assert init[i] == row[i];
    }
  }

  /** When no two columns camel-case to the same name, nothing is merged: the
      row keeps its length and its column order. */
  lemma {:induction false} CamelfyWithoutCollisions(row: Dict<Value>)
    requires forall i, j :: 0 <= i < j < |row| ==>
      AppSharedUtils.ToCamel(row[i].0) != AppSharedUtils.ToCamel(row[j].0)
    ensures CamelfyEntries(row) == RenameEach(row)
  {
    if row != [] {
      var init := row[..|row| - 1];
      forall i, j | 0 <= i < j < |init|
        ensures AppSharedUtils.ToCamel(init[i].0) != AppSharedUtils.ToCamel(init[j].0)
      {
        assert init[i] == row[i] && init[j] == row[j];
      }
      CamelfyWithoutCollisions(init);
      NoCollisionWithLast(row);
      RenameEachSnoc(row);
    }
  }

  /** A fetched row with the columns `student_id` and `hours_per_week` comes
      back with the keys `studentId` and `hoursPerWeek` the integration tests
      look for. */
  lemma SampleKeysPresent(row: Dict<Value>, i: nat, j: nat)
    requires i < |row| && row[i].0 == "student_id"
    requires j < |row| && row[j].0 == "hours_per_week"
    ensures "studentId" in Keys(CamelfyEntries(row))
    ensures "hoursPerWeek" in Keys(CamelfyEntries(row))
  {
    SnakeCamelRoundTrip.StudentIdColumn();
    SnakeCamelRoundTrip.HoursPerWeekColumn();
    CamelfyKeys(row);
    assert AppSharedUtils.ToCamel(row[i].0) in CamelKeys(row);
    assert AppSharedUtils.ToCamel(row[j].0) in CamelKeys(row);
  }

  /** `camelfy_object`: a new dict filled column by column. */
  method CamelfyObject(row: Dict<Value>) returns (r: Dict<Value>)
    ensures r == CamelfyEntries(row)
  {
    r := [];
    for i := 0 to |row|
      invariant r == CamelfyEntries(row[..i])
    {
      var key := row[i].0;
      var value := row[i].1;
      if value.PyDate? || value.PyDateTime? {
        r := Put(r, AppSharedUtils.ToCamel(key), PyStr(value.text));
      } else {
        r := Put(r, AppSharedUtils.ToCamel(key), value);
      }
      assert row[..i + 1][..i] == row[..i];
    }
    assert row[..|row|] == row;
  }

  datatype CamelfyError =
      /** The `Exception` raised for a value that is neither None, a dict nor a list. */
    | CouldNotParse(message: string)
      /** The `AttributeError` of `camelfy_object` on a list item that is not a
          dict: it has no `keys()`. */
    | ItemHasNoKeys(index: nat)

  /** `camelfy`: None stays None, a dict is camel-cased, a list has each of its
      items camel-cased, and anything else is refused. */
  method Camelfy(v: Value) returns (r: Result<Value, CamelfyError>)
    ensures v.PyNone? ==> r == Ok(PyNone)
    ensures v.PyDict? ==> r == Ok(PyDict(CamelfyEntries(v.entries)))
    ensures v.PyList? && r.Ok? ==>
      && r.value.PyList? && |r.value.items| == |v.items|
      && forall i :: 0 <= i < |v.items| ==>
           v.items[i].PyDict? && r.value.items[i] == PyDict(CamelfyEntries(v.items[i].entries))
    ensures v.PyList? && r.Err? ==>
      && r.error.ItemHasNoKeys?
      && r.error.index < |v.items| && !v.items[r.error.index].PyDict?
      && forall i :: 0 <= i < r.error.index ==> v.items[i].PyDict?
    ensures !(v.PyNone? || v.PyDict? || v.PyList?) ==>
      r == Err(CouldNotParse("camelfy could not parse type <class '" + TypeName(v) + "'>"))
  {
    if v.PyNone? {
      return Ok(PyNone);
    }
    if v.PyDict? {
      var obj := CamelfyObject(v.entries);
      return Ok(PyDict(obj));
    } else if v.PyList? {
      var newList: seq<Value> := [];
      for i := 0 to |v.items|
        invariant |newList| == i
        invariant forall j :: 0 <= j < i ==>
          v.items[j].PyDict? && newList[j] == PyDict(CamelfyEntries(v.items[j].entries))
      {
        var item := v.items[i];
        if !item.PyDict? {
          return Err(ItemHasNoKeys(i));
        }
        var obj := CamelfyObject(item.entries);
        newList := newList + [PyDict(obj)];
      }
      return Ok(PyList(newList));
    } else {
      return Err(CouldNotParse("camelfy could not parse type <class '" + TypeName(v) + "'>"));
    }
  }
}
