/** convertToSimplified (script.js:40-56): a fixed table of thirty
    Traditional characters and their Simplified forms, applied one table
    entry at a time with a global replace. */
module Simplify {

  /** The table, in the order `Object.entries` yields it. */
  const Table: seq<(char, char)> := [
    ('書', '书'), ('評', '评'), ('獲', '获'), ('與', '与'), ('為', '为'),
    ('說', '说'), ('經', '经'), ('過', '过'), ('開', '开'), ('關', '关'),
    ('來', '来'), ('會', '会'), ('時', '时'), ('個', '个'), ('這', '这'),
    ('們', '们'), ('對', '对'), ('學', '学'), ('體', '体'), ('現', '现'),
    ('機', '机'), ('動', '动'), ('語', '语'), ('長', '长'), ('問', '问'),
    ('題', '题'), ('發', '发'), ('當', '当'), ('種', '种'), ('進', '进')]

  predicate IsKey(t: seq<(char, char)>, c: char) {
    exists i :: 0 <= i < |t| && t[i].0 == c
  }

  /** No replacement character is itself replaced by any entry. */
  predicate NoValueIsKey(t: seq<(char, char)>) {
    forall i, j :: 0 <= i < |t| && 0 <= j < |t| ==> t[i].1 != t[j].0
  }

  /** The table has thirty entries, no two with the same key, and none of
      its Simplified values is a key. */
  lemma TableWellFormed()
    ensures |Table| == 30
    ensures forall i, j :: 0 <= i < j < |Table| ==> Table[i].0 != Table[j].0
    ensures NoValueIsKey(Table)
  {
    KeyPositions();
    ValuesOutsideTable();
    forall i, j | 0 <= i < j < |Table| ensures Table[i].0 != Table[j].0 {
      if Table[i].0 == Table[j].0 {
        KeysDistinct(i, j);
      }
    }
  }

  /** The position of a key in the table, and -1 for any other character. */
  function KeyIndex(c: char): int {
    match c
    case '書' => 0
    case '評' => 1
    case '獲' => 2
    case '與' => 3
    case '為' => 4
    case '說' => 5
    case '經' => 6
    case '過' => 7
    case '開' => 8
    case '關' => 9
    case '來' => 10
    case '會' => 11
    case '時' => 12
    case '個' => 13
    case '這' => 14
    case '們' => 15
    case '對' => 16
    case '學' => 17
    case '體' => 18
    case '現' => 19
    case '機' => 20
    case '動' => 21
    case '語' => 22
    case '長' => 23
    case '問' => 24
    case '題' => 25
    case '發' => 26
    case '當' => 27
    case '種' => 28
    case '進' => 29
    case _ => -1
  }

  lemma KeyPositions()
    ensures forall j :: 0 <= j < |Table| ==> KeyIndex(Table[j].0) == j
  {
  }

  lemma ValuesOutsideTable()
    ensures forall i :: 0 <= i < |Table| ==> KeyIndex(Table[i].1) == -1
  {
    FirstValuesOutsideTable();
    LastValuesOutsideTable();
  }

  lemma FirstValuesOutsideTable()
    ensures forall i :: 0 <= i < 15 ==> KeyIndex(Table[i].1) == -1
  {
  }

  lemma LastValuesOutsideTable()
    ensures forall i :: 15 <= i < 30 ==> KeyIndex(Table[i].1) == -1
  {
  }

  /** The character a table maps `c` to: the value of the first entry whose
      key is `c`, or `c` itself. */
  function Lookup(t: seq<(char, char)>, c: char): (r: char)
    ensures !IsKey(t, c) ==> r == c
    ensures IsKey(t, c) ==> exists i :: 0 <= i < |t| && t[i].0 == c && r == t[i].1
  {
    if t == [] then c
    else if t[0].0 == c then t[0].1
    else
      var r := Lookup(t[1..], c);
      assert IsKey(t[1..], c) ==> IsKey(t, c) by {
        if IsKey(t[1..], c) {
          var i :| 0 <= i < |t[1..]| && t[1..][i].0 == c;
          assert t[i + 1].0 == c;
        }
      }
      assert IsKey(t, c) ==> IsKey(t[1..], c) by {
        if IsKey(t, c) {
          var i :| 0 <= i < |t| && t[i].0 == c;
          assert t[1..][i - 1].0 == c;
        }
      }
      assert IsKey(t[1..], c) ==> exists i :: 0 <= i < |t| && t[i].0 == c && r == t[i].1 by {
        if IsKey(t[1..], c) {
          var i :| 0 <= i < |t[1..]| && t[1..][i].0 == c && r == t[1..][i].1;
          assert t[i + 1].0 == c && r == t[i + 1].1;
        }
      }
      r
  }

  /** The Simplified form of one character. */
  function SimplifiedChar(c: char): char {
    Lookup(Table, c)
  }

  /** The whole-string conversion, character by character. */
  function Simplified(s: string): (r: string)
    ensures |r| == |s|
  {
    seq(|s|, k requires 0 <= k < |s| => SimplifiedChar(s[k]))
  }

  /** One `replace(new RegExp(trad, 'g'), simp)` call: every occurrence of
      `from` becomes `to`, every other character stays. */
  function ReplaceChar(s: string, from: char, to: char): (r: string)
    ensures |r| == |s|
    ensures forall k :: 0 <= k < |s| ==> r[k] == if s[k] == from then to else s[k]
  {
    if s == [] then []
    else [if s[0] == from then to else s[0]] + ReplaceChar(s[1..], from, to)
  }

  /** What the first `n` replace calls do to one character. */
  function ApplyEntries(t: seq<(char, char)>, c: char): char {
    if t == [] then c
    else
      var d := ApplyEntries(t[..|t| - 1], c);
      if d == t[|t| - 1].0 then t[|t| - 1].1 else d
  }

  /** Applying the entries in turn is the same as a single lookup, because no
      replacement is itself a key. */
  lemma {:induction false} ApplyEntriesIsLookup(t: seq<(char, char)>, c: char)
    requires NoValueIsKey(t)
    ensures ApplyEntries(t, c) == Lookup(t, c)
  {
    if t != [] {
      var init, last := t[..|t| - 1], t[|t| - 1];
      assert NoValueIsKey(init) by {
        forall i, j | 0 <= i < |init| && 0 <= j < |init| ensures init[i].1 != init[j].0 {
          assert init[i] == t[i] && init[j] == t[j];
        }
      }
      ApplyEntriesIsLookup(init, c);
      assert init + [last] == t;
      LookupSnoc(init, last, c);
      if IsKey(init, c) {
        var i :| 0 <= i < |init| && init[i].0 == c && Lookup(init, c) == init[i].1;
        assert init[i] == t[i];
        assert Lookup(init, c) != last.0;
      }
    }
  }

  /** Looking up in a table extended at its end. */
  lemma {:induction false} LookupSnoc(t: seq<(char, char)>, e: (char, char), c: char)
    ensures Lookup(t + [e], c) == if IsKey(t, c) then Lookup(t, c) else if e.0 == c then e.1 else c
  {
    if t != [] {
      assert (t + [e])[1..] == t[1..] + [e];
      LookupSnoc(t[1..], e, c);
      if t[0].0 != c {
        assert IsKey(t, c) <==> IsKey(t[1..], c) by {
          if IsKey(t, c) {
            var i :| 0 <= i < |t| && t[i].0 == c;
            assert t[1..][i - 1].0 == c;
          }
          if IsKey(t[1..], c) {
            var i :| 0 <= i < |t[1..]| && t[1..][i].0 == c;
            assert t[i + 1].0 == c;
          }
        }
      } else {
        assert IsKey(t, c) by { assert t[0].0 == c; }
      }
    } else {
      assert [e][1..] == [];
    }
  }

  /** The conversion as the script runs it: one global replace per table
      entry, in table order. */
  method ConvertToSimplified(text: string) returns (result: string)
    ensures result == Simplified(text)
  {
    result := text;
    for i := 0 to |Table|
      invariant |result| == |text|
      invariant forall k :: 0 <= k < |text| ==> result[k] == ApplyEntries(Table[..i], text[k])
    {
      var (trad, simp) := Table[i];
      ghost var before := result;
      result := ReplaceChar(result, trad, simp);
      forall k | 0 <= k < |text|
        ensures result[k] == ApplyEntries(Table[..i + 1], text[k])
      {
        assert Table[..i + 1][..i] == Table[..i];
      }
    }
    TableWellFormed();
    forall k | 0 <= k < |text|
      ensures result[k] == SimplifiedChar(text[k])
    {
      assert Table[..|Table|] == Table;
      ApplyEntriesIsLookup(Table, text[k]);
    }
  }

  /** The conversion keeps the length, leaves every character outside the
      table as it is and maps each table character to its Simplified form. */
  lemma SimplifiedSpec(s: string)
    ensures |Simplified(s)| == |s|
    ensures forall k :: 0 <= k < |s| && !IsKey(Table, s[k]) ==> Simplified(s)[k] == s[k]
    ensures forall k, i :: 0 <= k < |s| && 0 <= i < |Table| && s[k] == Table[i].0 ==>
      Simplified(s)[k] == Table[i].1
  {
    TableWellFormed();
    forall k, i | 0 <= k < |s| && 0 <= i < |Table| && s[k] == Table[i].0
      ensures Simplified(s)[k] == Table[i].1
    {
      var j :| 0 <= j < |Table| && Table[j].0 == s[k] && Simplified(s)[k] == Table[j].1;
      KeysDistinct(i, j);
    }
  }

  /** No two entries share a key. */
  lemma KeysDistinct(i: int, j: int)
    requires 0 <= i < |Table| && 0 <= j < |Table| && Table[i].0 == Table[j].0
    ensures i == j
  {
    KeyPositions();
  }

  /** Converting twice is converting once: no Simplified output is a key. */
  lemma SimplifiedIdempotent(s: string)
    ensures Simplified(Simplified(s)) == Simplified(s)
  {
    TableWellFormed();
    var once := Simplified(s);
    forall k | 0 <= k < |s|
      ensures SimplifiedChar(once[k]) == once[k]
    {
      if IsKey(Table, s[k]) {
        var i :| 0 <= i < |Table| && Table[i].0 == s[k] && once[k] == Table[i].1;
        assert !IsKey(Table, once[k]);
      }
    }
  }
}
