/** The columns that an update of one entity reads back. */
module SelectedFields {
  import opened Schema

  /** The first selected name that is no column. */
  function FirstUnknown(fields: seq<Col>, columns: seq<Col>): Option<Col> {
    if fields == [] then None
    else if fields[0] !in columns then Some(fields[0])
    else FirstUnknown(fields[1..], columns)
  }

  /** All columns, or the id and the selected ones other than it. */
  function Returned(fields: seq<Col>, columns: seq<Col>): seq<Col> {
    if fields == [] then columns else [ID] + NotID(fields)
  }

  function NotID(fields: seq<Col>): seq<Col> {
    if fields == [] then []
    else var last := fields[|fields|-1]; NotID(fields[..|fields|-1]) + if last != ID then [last] else []
  }

  lemma {:induction false} FirstUnknownIs(fields: seq<Col>, columns: seq<Col>)
    ensures var r := FirstUnknown(fields, columns);
      && (r.None? <==> forall c :: c in fields ==> c in columns)
      && (r.Some? ==> IsFirstUnknown(fields, columns, r.value))
  {
    if fields != [] && fields[0] in columns {
      FirstUnknownIs(fields[1..], columns);
      var r := FirstUnknown(fields[1..], columns);
      if r.Some? {
        var i :| 0 <= i < |fields| - 1 && fields[1..][i] == r.value && UnknownAt(fields[1..], columns, i);
        forall j | 0 <= j < i + 1 ensures fields[j] in columns {
          assert j > 0 ==> fields[1..][j-1] == fields[j];
        }
        assert UnknownAt(fields, columns, i + 1);
      }
    }
  }

  /** Field i is no column, and all before it are. */
  predicate UnknownAt(fields: seq<Col>, columns: seq<Col>, i: nat)
    requires i < |fields|
  {
    fields[i] !in columns && forall j :: 0 <= j < i ==> fields[j] in columns
  }

  predicate IsFirstUnknown(fields: seq<Col>, columns: seq<Col>, c: Col) {
    exists i :: 0 <= i < |fields| && fields[i] == c && UnknownAt(fields, columns, i)
  }

  lemma {:induction false} NotIDIs(fields: seq<Col>)
    ensures forall c :: c in NotID(fields) <==> c in fields && c != ID
  {
    if fields != [] {
      NotIDIs(fields[..|fields|-1]);
    }
  }

  method ReturnedColumns(fields: seq<Col>, columns: seq<Col>) returns (r: Result<seq<Col>, Col>)
    ensures r == match FirstUnknown(fields, columns) case Some(c) => Err(c) case None => Ok(Returned(fields, columns))
    ensures r.Ok? <==> forall c :: c in fields ==> c in columns
    ensures r.Err? ==> IsFirstUnknown(fields, columns, r.error)
    ensures r.Ok? ==> forall c :: c in r.value <==> if fields == [] then c in columns else c == ID || c in fields
    ensures r.Ok? && fields != [] ==> r.value[0] == ID && ID !in r.value[1..]
  {
    FirstUnknownIs(fields, columns);
    NotIDIs(fields);
    if |fields| == 0 {
      return Ok(columns);
    }
    var selected := [ID];
    for i := 0 to |fields|
      invariant FirstUnknown(fields, columns) == FirstUnknown(fields[i..], columns)
      invariant selected == [ID] + NotID(fields[..i])
    {
      if fields[i] !in columns {
        return Err(fields[i]);
      }
      assert fields[..i+1][..i] == fields[..i];
      if fields[i] != ID {
        selected := selected + [fields[i]];
      }
    }
    assert fields[..|fields|] == fields;
    return Ok(selected);
  }
}
