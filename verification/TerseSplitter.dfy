/** Splitting a line of `nmcli -t` into its fields (racelink/services/host_wifi_service.py:155-182). */
module TerseSplitter {
  const BACKSLASH: char := '\\'

  /** What the scan makes of the rest of a line with `cur` collected so far. */
  function Fields(cur: string, rest: string): (r: seq<string>)
    ensures |r| > 0
    decreases |rest|
  {
    if rest == "" then [cur]
    else if rest[0] == BACKSLASH && |rest| > 1 && rest[1] == ':' then Fields(cur + ":", rest[2..])
    else if rest[0] == ':' then [cur] + Fields("", rest[1..])
    else Fields(cur + [rest[0]], rest[1..])
  }

  /** `_split_nmcli_terse_fields`. */
  method Split(line: string) returns (fields: seq<string>)
    ensures fields == Fields("", line)
  {
    fields := [];
    var cur, i := "", 0;
    while i < |line|
      invariant i <= |line|
      invariant fields + Fields(cur, line[i..]) == Fields("", line)
    {
      var c := line[i];
      ghost var rest := line[i..];
      assert rest[0] == c && rest[1..] == line[i + 1..];
      if c == BACKSLASH && i + 1 < |line| && line[i + 1] == ':' {
        assert rest[1] == ':' && rest[2..] == line[i + 2..];
        cur := cur + ":";
        i := i + 2;
      } else if c == ':' {
        assert fields + ([cur] + Fields("", rest[1..])) == (fields + [cur]) + Fields("", rest[1..]);
        fields := fields + [cur];
        cur := "";
        i := i + 1;
      } else {
        cur := cur + [c];
        i := i + 1;
      }
    }
    assert line[i..] == "";
    fields := fields + [cur];
  }

  // -- the format it reads -------------------------------------------------------------------

  /** A colon inside a field is written with a backslash before it. */
  function Escape(field: string): string {
    if field == "" then ""
    else (if field[0] == ':' then [BACKSLASH, ':'] else [field[0]]) + Escape(field[1..])
  }

  function Terse(fields: seq<string>): string
    requires fields != []
  {
    if |fields| == 1 then Escape(fields[0]) else Escape(fields[0]) + ":" + Terse(fields[1..])
  }

  predicate EndsInBackslash(field: string) {
    field != "" && field[|field| - 1] == BACKSLASH
  }

  /** The escaped field is read back whole, unless its last backslash meets a colon. */
  lemma {:induction false} ReadsField(cur: string, field: string, rest: string)
    requires !EndsInBackslash(field) || rest == "" || rest[0] != ':'
    ensures Fields(cur, Escape(field) + rest) == Fields(cur + field, rest)
    decreases |field|
  {
    if field == "" {
      assert Escape(field) + rest == rest && cur + field == cur;
    } else {
      var tail := Escape(field[1..]) + rest;
      ReadsField(cur + [field[0]], field[1..], rest);
      assert cur + [field[0]] + field[1..] == cur + field;
      if field[0] == ':' {
        assert Escape(field) + rest == [BACKSLASH, ':'] + tail;
      } else {
        assert Escape(field) + rest == [field[0]] + tail;
        assert field[0] == BACKSLASH && tail != "" ==> tail[0] != ':' by {
          if field[1..] != "" {
            assert tail[0] == Escape(field[1..])[0];
          }
        }
      }
    }
  }

  /** A backslash at the end of a field swallows the separator. */
  lemma SwallowsSeparator(cur: string, field: string, rest: string)
    requires EndsInBackslash(field)
    ensures Fields(cur, Escape(field) + ":" + rest) == Fields(cur + field[..|field| - 1] + ":", rest)
  {
    var init := field[..|field| - 1];
    EscapeLast(field);
    var tail := [BACKSLASH] + (":" + rest);
    assert Escape(field) + ":" + rest == Escape(init) + tail;
    ReadsField(cur, init, tail);
    assert tail[2..] == rest;
  }

  lemma {:induction false} EscapeLast(field: string)
    requires EndsInBackslash(field)
    ensures Escape(field) == Escape(field[..|field| - 1]) + [BACKSLASH]
  {
    if |field| > 1 {
      EscapeLast(field[1..]);
      assert field[1..][..|field| - 2] == field[..|field| - 1][1..];
      assert field[..|field| - 1][0] == field[0];
    }
  }

  /** How many fields but the last end in a backslash. */
  function Swallowing(fields: seq<string>): nat
    requires fields != []
  {
    if |fields| == 1 then 0 else (if EndsInBackslash(fields[0]) then 1 else 0) + Swallowing(fields[1..])
  }

  /** A first field that does not swallow its separator is read back, and the scan goes on afresh. */
  lemma ReadsFirst(cur: string, fields: seq<string>)
    requires |fields| > 1 && !EndsInBackslash(fields[0])
    ensures Fields(cur, Terse(fields)) == [cur + fields[0]] + Fields("", Terse(fields[1..]))
  {
    var rest := ":" + Terse(fields[1..]);
    assert Terse(fields) == Escape(fields[0]) + rest;
    ReadsField(cur, fields[0], rest);
    assert rest[1..] == Terse(fields[1..]);
  }

  lemma ReadsLast(cur: string, field: string)
    ensures Fields(cur, Terse([field])) == [cur + field]
  {
    assert Terse([field]) == Escape(field) + "";
    ReadsField(cur, field, "");
  }

  /** A line read back has one field fewer for every field before the last that ends in a backslash. */
  lemma {:induction false} FieldsLost(cur: string, fields: seq<string>)
    requires fields != []
    ensures |Fields(cur, Terse(fields))| + Swallowing(fields) == |fields|
    decreases |fields|
  {
    if |fields| == 1 {
      assert fields == [fields[0]];
      ReadsLast(cur, fields[0]);
    } else if EndsInBackslash(fields[0]) {
      SwallowsSeparator(cur, fields[0], Terse(fields[1..]));
      FieldsLost(cur + fields[0][..|fields[0]| - 1] + ":", fields[1..]);
    } else {
      ReadsFirst(cur, fields);
      FieldsLost("", fields[1..]);
    }
  }

  lemma {:induction false} RoundTrips(fields: seq<string>)
    requires fields != [] && Swallowing(fields) == 0
    ensures Fields("", Terse(fields)) == fields
  {
    assert "" + fields[0] == fields[0];
    if |fields| == 1 {
      assert fields == [fields[0]];
      ReadsLast("", fields[0]);
    } else {
      ReadsFirst("", fields);
      RoundTrips(fields[1..]);
    }
  }

  lemma {:induction false} NothingSwallowed(fields: seq<string>)
    requires fields != []
    ensures Swallowing(fields) == 0 <==> forall i :: 0 <= i < |fields| - 1 ==> !EndsInBackslash(fields[i])
  {
    if |fields| > 1 {
      NothingSwallowed(fields[1..]);
      assert forall i :: 1 <= i < |fields| - 1 ==> fields[i] == fields[1..][i - 1];
    }
  }

  /** Splitting undoes the escaping exactly when no field but the last ends in a backslash. */
  lemma SplitUndoesEscape(fields: seq<string>)
    requires fields != []
    ensures Fields("", Terse(fields)) == fields <==> forall i :: 0 <= i < |fields| - 1 ==> !EndsInBackslash(fields[i])
  {
    NothingSwallowed(fields);
    FieldsLost("", fields);
    if Swallowing(fields) == 0 {
      RoundTrips(fields);
    }
  }
}
