/** The two incident routes' per-record transform from database enum values
    to display strings, and the `resolved` query parameter. Case mapping is
    ASCII-only. */
module Api {
  import opened Options
  import opened Seqs
  import opened Incidents
  import opened Layout
  import opened IncidentList

  // ---------------------------------------------------------------------
  // Characters

  predicate IsUpper(c: char) { 'A' <= c <= 'Z' }
  predicate IsLower(c: char) { 'a' <= c <= 'z' }

  /** The regular-expression class `\w` without the `u` flag. */
  predicate IsWordChar(c: char) {
    IsUpper(c) || IsLower(c) || ('0' <= c <= '9') || c == '_'
  }

  function ToUpper(c: char): (u: char)
    ensures !IsLower(u)
    ensures IsWordChar(u) == IsWordChar(c)
    ensures !IsLower(c) ==> u == c
  {
    if IsLower(c) then (c as int - 32) as char else c
  }

  function ToLower(c: char): (l: char)
    ensures !IsUpper(l)
    ensures IsWordChar(l) == IsWordChar(c)
    ensures !IsUpper(c) ==> l == c
    ensures IsUpper(c) ==> ToUpper(l) == c
  {
    if IsUpper(c) then (c as int + 32) as char else c
  }

  // ---------------------------------------------------------------------
  // String steps

  /** `replace(/_/g, " ")`. */
  function ReplaceUnderscores(s: string): (r: string)
    ensures |r| == |s|
    ensures forall i :: 0 <= i < |s| ==> r[i] == (if s[i] == '_' then ' ' else s[i])
    ensures '_' !in r
  {
    if s == [] then [] else [if s[0] == '_' then ' ' else s[0]] + ReplaceUnderscores(s[1..])
  }

  /** Whether position i begins a word: `\b\w` matches there. */
  predicate StartsWord(s: string, i: int)
    requires 0 <= i < |s|
  {
    IsWordChar(s[i]) && (i == 0 || !IsWordChar(s[i - 1]))
  }

  /** `replace(/\b\w/g, l => l.toUpperCase())`: every character that begins a
      word is upper-cased; every other character is left alone. */
  function CapitalizeWords(s: string): (r: string)
    ensures |r| == |s|
    ensures forall i :: 0 <= i < |s| ==> (StartsWord(s, i) ==> r[i] == ToUpper(s[i]))
    ensures forall i :: 0 <= i < |s| ==> (!StartsWord(s, i) ==> r[i] == s[i])
  {
    if s == [] then []
    else
      var init := s[..|s| - 1];
      assert forall i :: 0 <= i < |init| ==> StartsWord(init, i) == StartsWord(s, i);
      CapitalizeWords(init) + [if StartsWord(s, |s| - 1) then ToUpper(s[|s| - 1]) else s[|s| - 1]]
  }

  /** Upper-casing word starts does not move the word boundaries. */
  lemma CapitalizeKeepsWords(s: string, i: int)
    requires 0 <= i < |s|
    ensures StartsWord(CapitalizeWords(s), i) == StartsWord(s, i)
  {
  }

  lemma CapitalizeIdempotent(s: string)
    ensures CapitalizeWords(CapitalizeWords(s)) == CapitalizeWords(s)
  {
    var once := CapitalizeWords(s);
    var twice := CapitalizeWords(once);
    forall i | 0 <= i < |s|
      ensures twice[i] == once[i]
    {
      CapitalizeKeepsWords(s, i);
    }
  }

  /** `toLowerCase()` on ASCII text. */
  function Lower(s: string): (r: string)
    ensures |r| == |s|
    ensures forall i :: 0 <= i < |s| ==> r[i] == ToLower(s[i])
  {
    if s == [] then [] else [ToLower(s[0])] + Lower(s[1..])
  }

  /** A lower-cased string has no upper-case letters, and lower-casing again
      changes nothing. */
  lemma LowerIdempotent(s: string)
    ensures forall i :: 0 <= i < |Lower(s)| ==> !IsUpper(Lower(s)[i])
    ensures Lower(Lower(s)) == Lower(s)
  {
    assert forall i :: 0 <= i < |s| ==> Lower(Lower(s))[i] == Lower(s)[i];
  }

  // ---------------------------------------------------------------------
  // The category as the routes write it, and as the front end expects it

  /** The routes' category transform as written: underscores become spaces
      and word-initial characters are upper-cased. The rest of each word keeps
      the enum's own (upper) case. */
  function TypeAsWritten(s: string): (r: string)
    ensures |r| == |s| && '_' !in r
    ensures forall i :: 0 <= i < |s| ==>
              var t := ReplaceUnderscores(s);
              (StartsWord(t, i) ==> r[i] == ToUpper(t[i])) && (!StartsWord(t, i) ==> r[i] == t[i])
  {
    CapitalizeWords(ReplaceUnderscores(s))
  }

  /** Applying the as-written transform twice equals applying it once. */
  lemma TypeAsWrittenIdempotent(s: string)
    ensures TypeAsWritten(TypeAsWritten(s)) == TypeAsWritten(s)
  {
    var t := ReplaceUnderscores(s);
    var r := CapitalizeWords(t);
    assert ReplaceUnderscores(r) == r;
    CapitalizeIdempotent(t);
  }

  /** A word of an enum name: upper-case letters only. */
  predicate UpperWord(w: string) {
    |w| > 0 && forall i :: 0 <= i < |w| ==> IsUpper(w[i])
  }

  /** A word in title case: its first letter kept, the rest lower-cased. */
  function Title(w: string): string
    requires |w| > 0
  {
    [w[0]] + Lower(w[1..])
  }

  /** As written, a two-word enum name `A_B` is sent as "A B": the words keep
      their upper case. */
  lemma TwoWordsAsWritten(a: string, b: string)
    requires UpperWord(a) && UpperWord(b)
    ensures TypeAsWritten(a + "_" + b) == a + " " + b
  {
    ReplaceTwoWords(a, b);
  }

  lemma GunThreatWords()
    ensures "GUN_THREAT" == "GUN" + "_" + "THREAT"
    ensures UpperWord("GUN") && UpperWord("THREAT")
  {
  }

  lemma LowerUN()
    ensures Lower("UN") == "un"
  {
    var r := Lower("UN");
    assert r[0] == ToLower('U') == 'u';
    assert r[1] == ToLower('N') == 'n';
  }

  lemma LowerHREAT()
    ensures Lower("HREAT") == "hreat"
  {
    var r := Lower("HREAT");
    assert r[0] == ToLower('H') == 'h';
    assert r[1] == ToLower('R') == 'r';
    assert r[2] == ToLower('E') == 'e';
    assert r[3] == ToLower('A') == 'a';
    assert r[4] == ToLower('T') == 't';
  }

  lemma GunThreatTitles()
    ensures Title("GUN") == "Gun" && Title("THREAT") == "Threat"
  {
    assert "GUN"[1..] == "UN" && "THREAT"[1..] == "HREAT";
    LowerUN();
    LowerHREAT();
  }

  lemma GunThreatJoin()
    ensures "Gun" + " " + "Threat" == "Gun Threat"
  {
  }

  /** As written, `GUN_THREAT` is sent as "GUN THREAT". */
  lemma GunThreatAsWritten()
    ensures TypeAsWritten("GUN_THREAT") == "GUN THREAT"
  {
    GunThreatWords();
    TwoWordsAsWritten("GUN", "THREAT");
    assert "GUN" + " " + "THREAT" == "GUN THREAT";
  }

  /** As written, the category the routes send for `GUN_THREAT` is one neither
      the timeline's nor the list's colour table recognises: the category
      colour falls back to gray. */
  lemma TypeAsWrittenMissesColourTables(k: string)
    requires k == TypeAsWritten("GUN_THREAT")
    ensures k == "GUN THREAT"
    ensures KindHex(k).None? && ListBorderColor(k) == GrayBorder
  {
    GunThreatAsWritten();
    UpperCaseMissesTables(k);
  }

  /** "GUN THREAT" is not a key of either colour table. */
  lemma UpperCaseMissesTables(k: string)
    requires k == "GUN THREAT"
    ensures KindHex(k).None? && ListBorderColor(k) == GrayBorder
  {
    assert k[1] == 'U';
  }

  /** The category in title case: underscores become spaces, every letter is
      lower-cased, then each word's first letter is upper-cased. The result
      has a capital exactly at the start of each word. */
  function DisplayType(s: string): (r: string)
    ensures |r| == |s| && '_' !in r
    ensures forall i :: 0 <= i < |r| && (IsLower(r[i]) || IsUpper(r[i])) ==> (IsUpper(r[i]) <==> StartsWord(r, i))
    ensures forall i :: 0 <= i < |s| ==>
              var t := Lower(ReplaceUnderscores(s));
              (StartsWord(t, i) ==> r[i] == ToUpper(t[i])) && (!StartsWord(t, i) ==> r[i] == t[i])
  {
    var t := Lower(ReplaceUnderscores(s));
    var r := CapitalizeWords(t);
    assert forall i :: 0 <= i < |s| ==> StartsWord(r, i) == StartsWord(t, i) by {
      forall i | 0 <= i < |s| ensures StartsWord(r, i) == StartsWord(t, i) {
        CapitalizeKeepsWords(t, i);
      }
    }
    r
  }

  /** Title-casing twice equals title-casing once. */
  lemma DisplayTypeIdempotent(s: string)
    ensures DisplayType(DisplayType(s)) == DisplayType(s)
  {
    var t := Lower(ReplaceUnderscores(s));
    LowerIdempotent(ReplaceUnderscores(s));
    NoUnderscoreInLower(ReplaceUnderscores(s));
    CapitalizeAddsNoUnderscore(t);
    LowerUndoesCapitalize(t);
  }

  lemma NoUnderscoreInLower(s: string)
    requires '_' !in s
    ensures '_' !in Lower(s)
  {
  }

  /** Capitalizing text without underscores leaves it without underscores. */
  lemma CapitalizeAddsNoUnderscore(t: string)
    requires '_' !in t
    ensures ReplaceUnderscores(CapitalizeWords(t)) == CapitalizeWords(t)
  {
    var r := CapitalizeWords(t);
    forall i | 0 <= i < |r| ensures r[i] != '_' {
      assert t[i] != '_';
    }
  }

  /** On text without upper-case letters, lower-casing undoes capitalizing. */
  lemma LowerUndoesCapitalize(t: string)
    requires forall i :: 0 <= i < |t| ==> !IsUpper(t[i])
    ensures Lower(CapitalizeWords(t)) == t
  {
    var r := CapitalizeWords(t);
    forall i | 0 <= i < |t| ensures Lower(r)[i] == t[i] {
      CaseRoundTrip(t[i]);
    }
  }

  lemma CaseRoundTrip(c: char)
    requires !IsUpper(c)
    ensures ToLower(ToUpper(c)) == c && ToLower(c) == c
  {
  }

  /** Lower-casing works character by character, so it distributes over
      concatenation. */
  lemma LowerConcat(x: string, y: string)
    ensures Lower(x + y) == Lower(x) + Lower(y)
  {
    assert forall i :: 0 <= i < |x| ==> (x + y)[i] == x[i];
    assert forall i :: |x| <= i < |x| + |y| ==> (x + y)[i] == y[i - |x|];
  }

  /** Lower-casing leaves the space between two words in place. */
  lemma LowerAroundSpace(x: string, y: string)
    ensures Lower(x + " " + y) == Lower(x) + " " + Lower(y)
  {
    LowerConcat(x + " ", y);
    LowerConcat(x, " ");
    assert Lower(" ") == " ";
  }

  /** In a name made of two underscore-free words, the one underscore
      becomes a space. */
  lemma ReplaceTwoWords(a: string, b: string)
    requires UpperWord(a) && UpperWord(b)
    ensures ReplaceUnderscores(a + "_" + b) == a + " " + b
  {
    var s, e := a + "_" + b, a + " " + b;
    forall i | 0 <= i < |s|
      ensures ReplaceUnderscores(s)[i] == e[i]
    {
      if i < |a| {
        assert s[i] == a[i] && e[i] == a[i];
      } else if i > |a| {
        assert s[i] == b[i - |a| - 1] && e[i] == b[i - |a| - 1];
      }
    }
  }

  /** Word starts on either side of a space are those of each side alone. */
  lemma StartsWordAroundSpace(x: string, y: string, i: int)
    requires 0 <= i < |x| + 1 + |y|
    ensures var s := x + " " + y;
            && (i < |x| ==> StartsWord(s, i) == StartsWord(x, i) && s[i] == x[i])
            && (i == |x| ==> !StartsWord(s, i) && s[i] == ' ')
            && (i > |x| ==> StartsWord(s, i) == StartsWord(y, i - |x| - 1) && s[i] == y[i - |x| - 1])
  {
    var s := x + " " + y;
    if i < |x| {
      assert s[i] == x[i];
      if i > 0 { assert s[i - 1] == x[i - 1]; }
    } else if i > |x| + 1 {
      assert s[i] == y[i - |x| - 1] && s[i - 1] == y[i - |x| - 2];
    } else if i == |x| + 1 {
      assert s[i] == y[0] && s[i - 1] == ' ';
    }
  }

  /** Capitalising word starts distributes around a space, since a space
      ends a word and the next character starts one. */
  lemma CapitalizeAroundSpace(x: string, y: string)
    ensures CapitalizeWords(x + " " + y) == CapitalizeWords(x) + " " + CapitalizeWords(y)
  {
    var s := x + " " + y;
    var r, e := CapitalizeWords(s), CapitalizeWords(x) + " " + CapitalizeWords(y);
    assert |r| == |e|;
    forall i | 0 <= i < |r|
      ensures r[i] == e[i]
    {
      StartsWordAroundSpace(x, y, i);
      if i > |x| {
        assert e[i] == CapitalizeWords(y)[i - |x| - 1];
      } else if i < |x| {
        assert e[i] == CapitalizeWords(x)[i];
      }
    }
  }

  /** Capitalising a lower-cased enum word gives it in title case. */
  lemma CapitalizeLowerWord(w: string)
    requires UpperWord(w)
    ensures CapitalizeWords(Lower(w)) == Title(w)
  {
    var l := Lower(w);
    var r := CapitalizeWords(l);
    assert StartsWord(l, 0);
    assert r[0] == ToUpper(ToLower(w[0])) == w[0];
    forall j | 1 <= j < |w|
      ensures r[j] == Lower(w[1..])[j - 1]
    {
      assert IsWordChar(l[j - 1]);
      assert !StartsWord(l, j);
    }
    assert r == [r[0]] + r[1..];
  }

  /** A two-word enum name `A_B` is sent as its two words in title case,
      separated by a space. */
  lemma TwoWordsTitle(a: string, b: string)
    requires UpperWord(a) && UpperWord(b)
    ensures DisplayType(a + "_" + b) == Title(a) + " " + Title(b)
  {
    calc {
      DisplayType(a + "_" + b);
      CapitalizeWords(Lower(ReplaceUnderscores(a + "_" + b)));
      { ReplaceTwoWords(a, b); }
      CapitalizeWords(Lower(a + " " + b));
      { LowerAroundSpace(a, b); }
      CapitalizeWords(Lower(a) + " " + Lower(b));
      { CapitalizeAroundSpace(Lower(a), Lower(b)); }
      CapitalizeWords(Lower(a)) + " " + CapitalizeWords(Lower(b));
      { CapitalizeLowerWord(a); CapitalizeLowerWord(b); }
      Title(a) + " " + Title(b);
    }
  }

  /** `GUN_THREAT` is sent as "Gun Threat", the name the timeline's and the
      list's colour tables key on. */
  lemma DisplayTypeMatchesColourTables(k: string)
    requires k == DisplayType("GUN_THREAT")
    ensures k == "Gun Threat"
    ensures KindHex(k) == Some("#ef4444") && ListBorderColor(k) == "border-l-red-500"
  {
    GunThreatWords();
    GunThreatTitles();
    TwoWordsTitle("GUN", "THREAT");
    GunThreatJoin();
  }

  // ---------------------------------------------------------------------
  // Records and routes

  /** The per-record mapping both routes apply: the category in title case,
      severity and camera status lower-cased, everything else copied. */
  function TransformIncident(inc: Incident): (r: Incident)
    ensures r.(kind := inc.kind, severity := inc.severity, camera := inc.camera) == inc
    ensures r.camera.(status := inc.camera.status) == inc.camera
    ensures r.kind == DisplayType(inc.kind)
    ensures r.severity == Lower(inc.severity) && r.camera.status == Lower(inc.camera.status)
  {
    inc.(kind := DisplayType(inc.kind),
         severity := Lower(inc.severity),
         camera := inc.camera.(status := Lower(inc.camera.status)))
  }

  lemma TransformIncidentIdempotent(inc: Incident)
    ensures TransformIncident(TransformIncident(inc)) == TransformIncident(inc)
  {
    DisplayTypeIdempotent(inc.kind);
    LowerIdempotent(inc.severity);
    LowerIdempotent(inc.camera.status);
  }

  /** `incidents.map(...)`: one transformed record per row, in the database's
      order. */
  function TransformAll(rows: seq<Incident>): (r: seq<Incident>)
    ensures |r| == |rows|
    ensures forall i :: 0 <= i < |rows| ==> r[i] == TransformIncident(rows[i])
  {
    Map(TransformIncident, rows)
  }

  lemma {:induction false} TransformAllIdempotent(rows: seq<Incident>)
    ensures TransformAll(TransformAll(rows)) == TransformAll(rows)
  {
    forall i | 0 <= i < |rows|
      ensures TransformAll(TransformAll(rows))[i] == TransformAll(rows)[i]
    {
      TransformIncidentIdempotent(rows[i]);
    }
  }

  /** The `resolved` query parameter: absent means no filter; present means
      true exactly for the string "true". */
  function ParseResolvedParam(p: Option<string>): (r: Option<bool>)
    ensures r.None? <==> p.None?
    ensures r == Some(true) <==> p == Some("true")
    ensures p.Some? && p.value != "true" ==> r == Some(false)
  {
    if p.Some? then Some(p.value == "true") else None
  }

  /** The rows the database returns for an optional resolved filter, taking
      the table (already in the query's order) as given. */
  function QueryIncidents(table: seq<Incident>, filter: Option<bool>): seq<Incident> {
    if filter.None? then table else Filter((x: Incident) => x.resolved == filter.value, table)
  }

  /** `GET /api/incidents/all`. */
  function AllRoute(table: seq<Incident>): (r: seq<Incident>)
    ensures |r| == |table|
    ensures forall i :: 0 <= i < |table| ==> r[i] == TransformIncident(table[i])
  {
    TransformAll(table)
  }

  /** `GET /api/incidents`. */
  function IncidentsRoute(param: Option<string>, table: seq<Incident>): (r: seq<Incident>)
    ensures param.None? ==> r == AllRoute(table)
  {
    TransformAll(QueryIncidents(table, ParseResolvedParam(param)))
  }

  /** Both routes apply the same mapping: filtering the rows by the parameter
      and then transforming equals transforming every row and then
      filtering, since the transform keeps the resolved flag. */
  lemma RoutesAgree(param: Option<string>, table: seq<Incident>)
    requires param.Some?
    ensures var v := param.value == "true";
            IncidentsRoute(param, table) == Filter((x: Incident) => x.resolved == v, AllRoute(table))
  {
    var v := param.value == "true";
    var f := (x: Incident) => x.resolved == v;
    MapFilterCommute(TransformIncident, f, f, table);
  }
}
