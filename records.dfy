/** The rows of the local `motoristas` table and the two UPDATE ... WHERE placa = ? statements. */
module Records {
  import opened Wrappers

  /** One row of `motoristas` (the surrogate `id` is not modelled). `None` is SQL NULL; `Some("")` is the empty string. */
  datatype Row = Row(
    unit: Option<string>,       // unidade
    name: Option<string>,       // nome
    plate: Option<string>,      // placa
    arrival: Option<string>,    // chegada_cd
    loadStart: Option<string>,  // inicio_carregamento
    loadEnd: Option<string>,    // fim_carregamento
    quantity: Option<int>)      // quantidade_remessas

  /** The dictionary handed to `salvar_database`: the three keys it indexes directly, and the
      four it reads with `.get`, where `None` means the key is absent. */
  datatype Draft = Draft(
    unit: string, name: string, plate: string,
    arrival: Option<string>, loadStart: Option<string>, loadEnd: Option<string>,
    quantity: Option<int>)

  /** The ASCII part of Python's `str.upper` on one character. */
  function UpperChar(c: char): (u: char)
    ensures 'a' <= c <= 'z' ==> 'A' <= u <= 'Z' && u as int == c as int - 32
    ensures !('a' <= c <= 'z') ==> u == c
  {
    if 'a' <= c <= 'z' then (c as int - 32) as char else c
  }

  /** Upper-cases the name and plate typed in the form: each lower-case ASCII letter becomes its
      capital, every other character is kept. */
  function Upper(s: string): (r: string)
    ensures |r| == |s|
    ensures forall i :: 0 <= i < |s| ==> !('a' <= r[i] <= 'z')
    ensures forall i :: 0 <= i < |s| && 'a' <= s[i] <= 'z' ==> r[i] as int == s[i] as int - 32
    ensures forall i :: 0 <= i < |s| && !('a' <= s[i] <= 'z') ==> r[i] == s[i]
  {
    seq(|s|, i requires 0 <= i < |s| => UpperChar(s[i]))
  }

  /** Upper-casing twice is upper-casing once, so a stored plate matches its own re-typed form. */
  lemma UpperIdempotent(s: string)
    ensures Upper(Upper(s)) == Upper(s)
  {
    var u := Upper(s);
    forall i | 0 <= i < |u|
      ensures Upper(u)[i] == u[i]
    {
      assert u[i] == UpperChar(s[i]);
    }
  }

  /** Two characters that are equal, or the same ASCII letter in the two cases. */
  predicate SameLetter(a: char, b: char)
  {
    a == b || ('a' <= a <= 'z' && b as int == a as int - 32) || ('a' <= b <= 'z' && a as int == b as int - 32)
  }

  /** Two plates upper-case alike exactly when they differ only in the case of ASCII letters, so a
      plate typed in lower case at a later stage finds the row stored at arrival. */
  lemma UpperMatchesIgnoringCase(s: string, t: string)
    ensures Upper(s) == Upper(t) <==> |s| == |t| && forall i :: 0 <= i < |s| ==> SameLetter(s[i], t[i])
  {
    if |s| == |t| {
      forall i | 0 <= i < |s|
        ensures Upper(s)[i] == Upper(t)[i] <==> SameLetter(s[i], t[i])
      {
        assert Upper(s)[i] == UpperChar(s[i]) && Upper(t)[i] == UpperChar(t[i]);
      }
      if forall i :: 0 <= i < |s| ==> SameLetter(s[i], t[i]) {
        assert Upper(s) == Upper(t);
      }
    }
  }

  /** The set of plate cells present in a table. */
  function Plates(rows: seq<Row>): set<Option<string>>
  {
    set r | r in rows :: r.plate
  }

  /** `UPDATE motoristas SET inicio_carregamento = stamp WHERE placa = plate`. */
  function StampLoadStart(rows: seq<Row>, plate: string, stamp: string): (r: seq<Row>)
    ensures |r| == |rows|
    ensures forall i :: 0 <= i < |rows| ==>
      r[i].loadStart == (if rows[i].plate == Some(plate) then Some(stamp) else rows[i].loadStart)
    ensures forall i :: 0 <= i < |rows| ==> r[i].(loadStart := rows[i].loadStart) == rows[i]
  {
    if rows == [] then []
    else
      var head := if rows[0].plate == Some(plate) then rows[0].(loadStart := Some(stamp)) else rows[0];
      [head] + StampLoadStart(rows[1..], plate, stamp)
  }

  /** `UPDATE motoristas SET fim_carregamento = stamp, quantidade_remessas = quantity WHERE placa = plate`. */
  function StampLoadEnd(rows: seq<Row>, plate: string, stamp: string, quantity: nat): (r: seq<Row>)
    ensures |r| == |rows|
    ensures forall i :: 0 <= i < |rows| ==>
      r[i].loadEnd == (if rows[i].plate == Some(plate) then Some(stamp) else rows[i].loadEnd)
    ensures forall i :: 0 <= i < |rows| ==>
      r[i].quantity == (if rows[i].plate == Some(plate) then Some(quantity) else rows[i].quantity)
    ensures forall i :: 0 <= i < |rows| ==>
      r[i].(loadEnd := rows[i].loadEnd, quantity := rows[i].quantity) == rows[i]
  {
    if rows == [] then []
    else
      var head := if rows[0].plate == Some(plate) then rows[0].(loadEnd := Some(stamp), quantity := Some(quantity)) else rows[0];
      [head] + StampLoadEnd(rows[1..], plate, stamp, quantity)
  }

  /** An update whose plate matches no row leaves the table exactly as it was (no error either). */
  lemma StampWithoutMatchIsNoOp(rows: seq<Row>, plate: string, stamp: string, quantity: nat)
    requires Some(plate) !in Plates(rows)
    ensures StampLoadStart(rows, plate, stamp) == rows
    ensures StampLoadEnd(rows, plate, stamp, quantity) == rows
  {
    var s := StampLoadStart(rows, plate, stamp);
    var e := StampLoadEnd(rows, plate, stamp, quantity);
    forall i | 0 <= i < |rows|
      ensures s[i] == rows[i] && e[i] == rows[i]
    {
      assert rows[i].plate in Plates(rows);
    }
  }

  /** Neither update touches a plate, so the set of plates is preserved. */
  lemma StampKeepsPlates(rows: seq<Row>, plate: string, stamp: string, quantity: nat)
    ensures Plates(StampLoadStart(rows, plate, stamp)) == Plates(rows)
    ensures Plates(StampLoadEnd(rows, plate, stamp, quantity)) == Plates(rows)
  {
    var s := StampLoadStart(rows, plate, stamp);
    var e := StampLoadEnd(rows, plate, stamp, quantity);
    forall p | p in Plates(rows)
      ensures p in Plates(s) && p in Plates(e)
    {
      var i :| 0 <= i < |rows| && rows[i].plate == p;
      assert s[i].plate == p && e[i].plate == p;
    }
    forall p | p in Plates(s)
      ensures p in Plates(rows)
    {
      var i :| 0 <= i < |s| && s[i].plate == p;
      assert rows[i].plate == p;
    }
    forall p | p in Plates(e)
      ensures p in Plates(rows)
    {
      var i :| 0 <= i < |e| && e[i].plate == p;
      assert rows[i].plate == p;
    }
  }

  /** The plates of a concatenation are the plates of its parts. */
  lemma PlatesAppend(a: seq<Row>, b: seq<Row>)
    ensures Plates(a + b) == Plates(a) + Plates(b)
  {
    forall p | p in Plates(a + b)
      ensures p in Plates(a) + Plates(b)
    {
      var r :| r in a + b && r.plate == p;
      assert r in a || r in b;
    }
  }
}
