/**
 * What both factories' `CreateDataShapedObject` share. Reflection over a DTO
 * (`GetProperty(field, BindingFlags.IgnoreCase | ...)`) becomes a per-type
 * field table keyed by the lower-cased property name; the `ExpandoObject`
 * becomes an ordered list of (key, value) entries, filled one `Add` at a time.
 */
module Shaping {
  import opened Results
  import opened Text

  /** The scalar property values a DTO exposes. */
  datatype Scalar =
    | IntValue(i: int)
    | DecimalValue(d: real)
    | DateValue(ticks: int)
    | TextValue(s: string)

  /**
   * Why shaping throws: `GetProperty` found no property (a null reference),
   * `IDictionary.Add` met a key already present, or a `foreach` ran over a
   * null collection.
   */
  datatype Fault =
    | UnknownField(name: string)
    | DuplicateKey(name: string)
    | NullCollection

  /** A field name resolves against a table when it matches a property ignoring case. */
  predicate Known<V>(table: map<string, V>, name: string) {
    Lower(name) in table
  }

  predicate AllKnown<V>(fields: seq<string>, table: map<string, V>) {
    forall i | 0 <= i < |fields| :: Known(table, fields[i])
  }

  predicate Distinct(fields: seq<string>) {
    forall i, j | 0 <= i < j < |fields| :: fields[i] != fields[j]
  }

  /** The keys of an entry list, in insertion order. */
  function Keys<V>(bag: seq<(string, V)>): (r: seq<string>)
    ensures |r| == |bag|
  {
    seq(|bag|, i requires 0 <= i < |bag| => bag[i].0)
  }

  /**
   * Reference semantics of the `foreach (var field in ...)` loop: look each
   * field up (failing on an unknown name), then `Add` it under the name as
   * written (failing on a key already added).
   */
  function BuildBag<V>(fields: seq<string>, table: map<string, V>): (r: Result<seq<(string, V)>, Fault>)
    ensures r.Ok? <==> AllKnown(fields, table) && Distinct(fields)
    ensures r.Ok? ==> Keys(r.value) == fields
    ensures r.Ok? ==> forall i | 0 <= i < |fields| :: r.value[i].1 == table[Lower(fields[i])]
    ensures r.Err? && r.error.UnknownField? ==> r.error.name in fields && !Known(table, r.error.name)
    ensures r.Err? && r.error.DuplicateKey? ==>
      exists i, j | 0 <= i < j < |fields| :: fields[i] == fields[j] == r.error.name
    ensures !r.Err? || !r.error.NullCollection?
    decreases |fields|
  {
    if |fields| == 0 then Ok([])
    else
      var init, field := fields[..|fields| - 1], fields[|fields| - 1];
      assert fields == init + [field];
      AllKnownAppend(init, field, table);
      match BuildBag(init, table)
      case Err(f) =>
        PrefixNotDistinct(init, field);
        if f.DuplicateKey? then
          PrefixDuplicate(init, field, f.name);
          Err(f)
        else
          Err(f)
      case Ok(bag) =>
        if !Known(table, field) then Err(UnknownField(field))
        else if field in Keys(bag) then
          RepeatNotDistinct(init, field);
          Err(DuplicateKey(field))
        else
          AppendDistinct(init, field);
          AppendEntry(bag, init, field, table);
          Ok(bag + [(field, table[Lower(field)])])
  }

  lemma AllKnownAppend<V>(init: seq<string>, field: string, table: map<string, V>)
    ensures AllKnown(init + [field], table) <==> AllKnown(init, table) && Known(table, field)
  {
    var fields := init + [field];
    if AllKnown(fields, table) {
      assert Known(table, fields[|init|]);
      forall i | 0 <= i < |init| ensures Known(table, init[i]) {
        assert fields[i] == init[i];
      }
    }
  }

  lemma PrefixNotDistinct(init: seq<string>, field: string)
    ensures !Distinct(init) ==> !Distinct(init + [field])
  {
    if !Distinct(init) {
      var i, j :| 0 <= i < j < |init| && init[i] == init[j];
      assert (init + [field])[i] == (init + [field])[j];
    }
  }

  lemma PrefixDuplicate(init: seq<string>, field: string, name: string)
    requires exists i, j | 0 <= i < j < |init| :: init[i] == init[j] == name
    ensures exists i, j | 0 <= i < j < |init + [field]| :: (init + [field])[i] == (init + [field])[j] == name
  {
    var i, j :| 0 <= i < j < |init| && init[i] == init[j] == name;
    assert (init + [field])[i] == (init + [field])[j] == name;
  }

  lemma RepeatNotDistinct(init: seq<string>, field: string)
    requires field in init
    ensures exists i, j | 0 <= i < j < |init + [field]| :: (init + [field])[i] == (init + [field])[j] == field
  {
    var i :| 0 <= i < |init| && init[i] == field;
    assert (init + [field])[i] == (init + [field])[|init|] == field;
  }

  lemma AppendDistinct(init: seq<string>, field: string)
    requires Distinct(init) && field !in init
    ensures Distinct(init + [field])
  {
    var fields := init + [field];
    forall i, j | 0 <= i < j < |fields|
      ensures fields[i] != fields[j]
    {
      if j < |init| {
        assert init[i] != init[j];
      } else {
        assert fields[i] == init[i];
      }
    }
  }

  lemma AppendEntry<V>(bag: seq<(string, V)>, init: seq<string>, field: string, table: map<string, V>)
    requires Keys(bag) == init
    requires forall i | 0 <= i < |init| :: Known(table, init[i]) && bag[i].1 == table[Lower(init[i])]
    requires Known(table, field)
    ensures Keys(bag + [(field, table[Lower(field)])]) == init + [field]
    ensures var r := bag + [(field, table[Lower(field)])];
      forall i | 0 <= i < |init + [field]| ::
        Known(table, (init + [field])[i]) && r[i].1 == table[Lower((init + [field])[i])]
  {
    var r := bag + [(field, table[Lower(field)])];
    assert Keys(r) == init + [field] by {
      forall i | 0 <= i < |r| ensures Keys(r)[i] == (init + [field])[i] {
        if i < |bag| { assert Keys(bag)[i] == bag[i].0; }
      }
    }
  }

  /** A failure on a prefix of the fields is the failure of the whole list. */
  lemma {:induction false} BagFailureStands<V>(fields: seq<string>, table: map<string, V>, k: nat)
    requires k <= |fields|
    requires BuildBag(fields[..k], table).Err?
    ensures BuildBag(fields, table) == BuildBag(fields[..k], table)
    decreases |fields| - k
  {
    if k < |fields| {
      var init := fields[..|fields| - 1];
      assert init[..k] == fields[..k];
      BagFailureStands(init, table, k);
    } else {
      assert fields[..k] == fields;
    }
  }

  /** Whether and how the loop fails depends on the table's keys, not its values. */
  lemma {:induction false} BagFailureIgnoresValues<V>(fields: seq<string>, t1: map<string, V>, t2: map<string, V>)
    requires t1.Keys == t2.Keys
    requires BuildBag(fields, t1).Err?
    ensures BuildBag(fields, t2) == BuildBag(fields, t1)
    decreases |fields|
  {
    var init := fields[..|fields| - 1];
    if BuildBag(init, t1).Err? {
      BagFailureIgnoresValues(init, t1, t2);
    } else {
      assert AllKnown(init, t2);
    }
  }

  /** The `foreach` loop that adds one entry per requested field. */
  method FillBag<V>(fields: seq<string>, table: map<string, V>) returns (r: Result<seq<(string, V)>, Fault>)
    ensures r == BuildBag(fields, table)
  {
    var bag: seq<(string, V)> := [];
    var i := 0;
    while i < |fields|
      invariant 0 <= i <= |fields|
      invariant BuildBag(fields[..i], table) == Ok(bag)
    {
      var field := fields[i];
      BagStep(fields, table, i, bag);
      if !Known(table, field) {
        BagFailureStands(fields, table, i + 1);
        return Err(UnknownField(field));
      }
      if field in Keys(bag) {
        BagFailureStands(fields, table, i + 1);
        return Err(DuplicateKey(field));
      }
      bag := bag + [(field, table[Lower(field)])];
      i := i + 1;
    }
    assert fields[..i] == fields;
    r := Ok(bag);
  }

  /** One turn of the loop: look the next field up, then add it unless its key is taken. */
  lemma BagStep<V>(fields: seq<string>, table: map<string, V>, i: nat, bag: seq<(string, V)>)
    requires i < |fields|
    requires BuildBag(fields[..i], table) == Ok(bag)
    ensures BuildBag(fields[..i + 1], table) ==
      if !Known(table, fields[i]) then Err(UnknownField(fields[i]))
      else if fields[i] in Keys(bag) then Err(DuplicateKey(fields[i]))
      else Ok(bag + [(fields[i], table[Lower(fields[i])])])
  {
    assert fields[..i + 1][..i] == fields[..i];
  }

  /**
   * Reference semantics of shaping a list element by element (a `foreach`
   * or a `Select` that is enumerated): the first failure wins.
   */
  function MapAll<T, U>(xs: seq<T>, f: T -> Result<U, Fault>): (r: Result<seq<U>, Fault>)
    ensures r.Ok? <==> forall i | 0 <= i < |xs| :: f(xs[i]).Ok?
    ensures r.Ok? ==> |r.value| == |xs| && forall i | 0 <= i < |xs| :: r.value[i] == f(xs[i]).value
    ensures r.Err? ==> exists i | 0 <= i < |xs| :: f(xs[i]) == Err(r.error) && forall j | 0 <= j < i :: f(xs[j]).Ok?
    decreases |xs|
  {
    if |xs| == 0 then Ok([])
    else
      var init, x := xs[..|xs| - 1], xs[|xs| - 1];
      assert xs == init + [x];
      match MapAll(init, f)
      case Err(e) =>
        Err(e)
      case Ok(ys) =>
        match f(x)
        case Err(e) => Err(e)
        case Ok(y) => Ok(ys + [y])
  }

  /** A failure on a prefix of the list is the failure of the whole list. */
  lemma {:induction false} MapFailureStands<T, U>(xs: seq<T>, f: T -> Result<U, Fault>, k: nat)
    requires k <= |xs|
    requires MapAll(xs[..k], f).Err?
    ensures MapAll(xs, f) == MapAll(xs[..k], f)
    decreases |xs| - k
  {
    if k < |xs| {
      var init := xs[..|xs| - 1];
      assert init[..k] == xs[..k];
      MapFailureStands(init, f, k);
    } else {
      assert xs[..k] == xs;
    }
  }
}
