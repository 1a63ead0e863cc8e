/**
 * The column resolver (`encontrar_coluna_cnpj`): finds the spreadsheet column
 * that holds the identifiers, by a case- and whitespace-insensitive search for
 * "cnpj" in the column names.
 */
module Columns {
  import opened Wrappers

  /** The substring that marks the identifier column. */
  const Marker := "cnpj"

  /**
   * The characters `str.strip()` removes, restricted to ASCII: tab, line feed,
   * vertical tab, form feed, carriage return, the four separators 0x1C-0x1F
   * and space.
   */
  predicate IsSpace(c: char) {
    c == ' ' || '\t' <= c <= '\r' || '\U{1C}' <= c <= '\U{1F}'
  }

  /** `str.lower()` on one character, restricted to ASCII letters. */
  function LowerChar(c: char): char {
    if 'A' <= c <= 'Z' then (c as int + 32) as char else c
  }

  /** `str.lower()`, character by character. */
  function Lower(s: string): (r: string)
    ensures |r| == |s|
    ensures forall i :: 0 <= i < |s| ==> r[i] == LowerChar(s[i])
  {
    seq(|s|, i requires 0 <= i < |s| => LowerChar(s[i]))
  }

  /** Number of whitespace characters at the front of `s`. */
  function LeadingSpaces(s: string): (n: nat)
    ensures n <= |s|
    ensures forall i :: 0 <= i < n ==> IsSpace(s[i])
    ensures n < |s| ==> !IsSpace(s[n])
  {
    if s == [] || !IsSpace(s[0]) then 0 else 1 + LeadingSpaces(s[1..])
  }

  /** Index where the run of whitespace at the back of `s` begins. */
  function TrailingSpacesStart(s: string): (m: nat)
    ensures m <= |s|
    ensures forall i :: m <= i < |s| ==> IsSpace(s[i])
    ensures 0 < m ==> !IsSpace(s[m - 1])
  {
    if s == [] || !IsSpace(s[|s| - 1]) then |s| else TrailingSpacesStart(s[..|s| - 1])
  }

  /** `str.strip()`: `s` without whitespace at either end. */
  function Strip(s: string): (r: string)
    ensures LeadingSpaces(s) < |s| ==> r == s[LeadingSpaces(s)..TrailingSpacesStart(s)]
    ensures LeadingSpaces(s) == |s| ==> r == []
  {
    var a, b := LeadingSpaces(s), TrailingSpacesStart(s);
    if a < |s| then
      assert !IsSpace(s[a]);
      s[a..b]
    else
      []
  }

  /**
   * What `strip()` promises: the result is a slice of the name with only
   * whitespace outside it, and it neither starts nor ends with whitespace.
   * An all-whitespace name therefore strips to the empty string.
   */
  lemma StripMeans(s: string)
    ensures exists a, b ::
      && 0 <= a <= b <= |s| && Strip(s) == s[a..b]
      && (forall i :: 0 <= i < a ==> IsSpace(s[i]))
      && (forall i :: b <= i < |s| ==> IsSpace(s[i]))
    ensures Strip(s) == [] || (!IsSpace(Strip(s)[0]) && !IsSpace(Strip(s)[|Strip(s)| - 1]))
  {
    var a, b := LeadingSpaces(s), TrailingSpacesStart(s);
    if a < |s| {
      assert a < b;
      assert Strip(s)[0] == s[a] && Strip(s)[|Strip(s)| - 1] == s[b - 1];
    } else {
      assert Strip(s) == s[|s|..|s|];
    }
  }

  /** Python's `p in s` for strings: `p` occurs in `s` as a contiguous block. */
  predicate Contains(s: string, p: string)
    decreases |s|
  {
    |p| <= |s| && (s[..|p|] == p || Contains(s[1..], p))
  }

  /** `p` occurs in `s` starting at index `i`. */
  predicate OccursAt(s: string, p: string, i: int) {
    0 <= i && i + |p| <= |s| && s[i..i + |p|] == p
  }

  /** `Contains` holds exactly when `p` sits at some position of `s`. */
  lemma {:induction false} ContainsAt(s: string, p: string)
    ensures Contains(s, p) <==> exists i :: OccursAt(s, p, i)
    decreases |s|
  {
    if |p| <= |s| {
      if s[..|p|] == p {
        assert OccursAt(s, p, 0);
      } else {
        ContainsAt(s[1..], p);
        if exists i :: OccursAt(s, p, i) {
          var i :| OccursAt(s, p, i);
          assert i != 0;
          assert OccursAt(s[1..], p, i - 1);
        }
        if Contains(s[1..], p) {
          var j :| OccursAt(s[1..], p, j);
          assert s[1..][j..j + |p|] == s[j + 1..j + 1 + |p|];
          assert OccursAt(s, p, j + 1);
        }
      }
    }
  }

  /**
   * The test applied to each column name: `"cnpj" in col.strip().lower()`.
   * Since "cnpj" holds no whitespace, the name qualifies exactly when its
   * lower-cased form contains "cnpj", stripped or not.
   */
  predicate IsCnpjColumn(col: string)
    ensures IsCnpjColumn(col) <==> Contains(Lower(col), Marker)
  {
    StripDoesNotAffectMatch(col);
    Contains(Lower(Strip(col)), Marker)
  }

  /** The first element of `xs` that passes `test`, or None. */
  function FirstMatch(xs: seq<string>, test: string -> bool): (r: Option<string>)
    ensures r.None? <==> forall i :: 0 <= i < |xs| ==> !test(xs[i])
    ensures r.Some? ==> exists i :: (0 <= i < |xs| && xs[i] == r.value && test(xs[i])
      && forall j :: 0 <= j < i ==> !test(xs[j]))
  {
    if xs == [] then None
    else if test(xs[0]) then Some(xs[0])
    else
      var r := FirstMatch(xs[1..], test);
      assert forall j :: 1 <= j < |xs| ==> xs[j] == xs[1..][j - 1];
      r
  }

  /**
   * `encontrar_coluna_cnpj`: the first column, in order, whose stripped and
   * lower-cased name contains "cnpj", returned with its original spelling;
   * None when no column qualifies.
   */
  function FindCnpjColumn(cols: seq<string>): (r: Option<string>)
    ensures r.None? <==> forall i :: 0 <= i < |cols| ==> !IsCnpjColumn(cols[i])
    ensures r.Some? ==> r.value in cols
    ensures r.Some? ==> exists i :: (0 <= i < |cols| && cols[i] == r.value && IsCnpjColumn(cols[i])
      && forall j :: 0 <= j < i ==> !IsCnpjColumn(cols[j]))
  {
    FirstMatch(cols, IsCnpjColumn)
  }

  /**
   * Stripping never changes the verdict: "cnpj" holds no whitespace, so an
   * occurrence can never overlap the whitespace that `strip()` removes.
   */
  lemma StripDoesNotAffectMatch(col: string)
    ensures Contains(Lower(Strip(col)), Marker) <==> Contains(Lower(col), Marker)
  {
    ContainsAt(Lower(col), Marker);
    ContainsAt(Lower(Strip(col)), Marker);
    if exists i :: OccursAt(Lower(col), Marker, i) {
      var i :| OccursAt(Lower(col), Marker, i);
      MatchSurvivesStrip(col, i);
    }
    if exists j :: OccursAt(Lower(Strip(col)), Marker, j) {
      var j :| OccursAt(Lower(Strip(col)), Marker, j);
      // a match in the stripped name sits at the same place, shifted, in the name
      var a, b := LeadingSpaces(col), TrailingSpacesStart(col);
      assert |Lower(Strip(col))| == |Strip(col)| > 0;
      LowerStrip(col);
      OccursInSlice(Lower(col), Lower(Strip(col)), Marker, a, b, j);
    }
  }

  /** Lower-casing leaves whitespace alone, so a character that lower-cases to a letter is no whitespace. */
  lemma LetterIsNotSpace(c: char)
    requires 'a' <= LowerChar(c) <= 'z'
    ensures !IsSpace(c)
  {
  }

  /** Lower-casing commutes with taking a slice. */
  lemma LowerSlice(s: string, a: nat, b: nat)
    requires a <= b <= |s|
    ensures Lower(s[a..b]) == Lower(s)[a..b]
  {
  }

  /** An occurrence fixes each character it covers. */
  lemma OccursAtChar(s: string, p: string, i: int, k: int)
    requires OccursAt(s, p, i) && 0 <= k < |p|
    ensures s[i + k] == p[k]
  {
    assert s[i..i + |p|][k] == s[i + k];
  }

  /** An occurrence inside [a, b) is an occurrence in the slice t == s[a..b], and back. */
  lemma OccursInSlice(s: string, t: string, p: string, a: int, b: int, j: int)
    requires 0 <= a <= b <= |s| && t == s[a..b]
    requires 0 <= j && a + j + |p| <= b
    ensures OccursAt(s, p, a + j) <==> OccursAt(t, p, j)
  {
    var i := a + j;
    var inner, outer := s[a..b][j..j + |p|], s[i..i + |p|];
    assert |inner| == |outer|;
    forall k | 0 <= k < |p|
      ensures inner[k] == outer[k]
    {
      assert inner[k] == s[a..b][j + k] == s[i + k];
      assert outer[k] == s[i + k];
    }
    assert inner == outer;
  }

  /** Lower-casing the stripped name is slicing the lower-cased name. */
  lemma LowerStrip(col: string)
    requires LeadingSpaces(col) < |col|
    ensures Lower(Strip(col)) == Lower(col)[LeadingSpaces(col)..TrailingSpacesStart(col)]
  {
    LowerSlice(col, LeadingSpaces(col), TrailingSpacesStart(col));
  }

  lemma MatchSurvivesStrip(col: string, i: int)
    requires OccursAt(Lower(col), Marker, i)
    ensures OccursAt(Lower(Strip(col)), Marker, i - LeadingSpaces(col))
  {
    var a, b := LeadingSpaces(col), TrailingSpacesStart(col);
    var whole := Lower(col);
    OccursAtChar(whole, Marker, i, 0);
    OccursAtChar(whole, Marker, i, 3);
    LetterIsNotSpace(col[i]);
    LetterIsNotSpace(col[i + 3]);
    assert a <= i && i + 4 <= b;
    LowerStrip(col);
    OccursInSlice(whole, Lower(Strip(col)), Marker, a, b, i - a);
  }

  /** A name with no 'j' in any case cannot contain "cnpj". */
  lemma NoJNoMatch(col: string)
    requires forall k :: 0 <= k < |col| ==> LowerChar(col[k]) != 'j'
    ensures !IsCnpjColumn(col)
  {
    ContainsAt(Lower(col), Marker);
    forall i | 0 <= i && i + 4 <= |col| ensures !OccursAt(Lower(col), Marker, i) {
      assert Lower(col)[i..i + 4][3] == Lower(col)[i + 3] != 'j';
    }
  }

  lemma CnpjEmpresaMatches(id: string)
    requires id == "CNPJ Empresa"
    ensures IsCnpjColumn(id)
  {
    assert Lower(id)[..4] == Marker;
  }

  lemma RazaoSocialDoesNotMatch(name: string)
    requires name == "Razão Social"
    ensures !IsCnpjColumn(name)
  {
    NoJNoMatch(name);
  }

  /** The first qualifying column wins, whatever follows it. */
  lemma FirstQualifyingColumnWins(x: string, y: string, z: string)
    requires !IsCnpjColumn(x) && IsCnpjColumn(y)
    ensures FindCnpjColumn([x, y, z]) == Some(y)
  {
    var cols := [x, y, z];
    assert cols[0] == x && cols[1] == y;
  }

  /** Two columns neither of which qualifies: no identifier column. */
  lemma NoQualifyingColumn(x: string, y: string)
    requires !IsCnpjColumn(x) && !IsCnpjColumn(y)
    ensures FindCnpjColumn([x, y]) == None
  {
    var cols := [x, y];
    assert cols[0] == x && cols[1] == y;
  }

  /** ["Razão Social", "CNPJ Empresa", "UF"] resolves to "CNPJ Empresa". */
  lemma ResolvesCnpjEmpresa(name: string, id: string, uf: string)
    requires name == "Razão Social" && id == "CNPJ Empresa" && uf == "UF"
    ensures FindCnpjColumn([name, id, uf]) == Some(id)
  {
    RazaoSocialDoesNotMatch(name);
    CnpjEmpresaMatches(id);
    FirstQualifyingColumnWins(name, id, uf);
  }

  /** ["A", "B"] has no identifier column. */
  lemma ResolvesNothing(a: string, b: string)
    requires a == "A" && b == "B"
    ensures FindCnpjColumn([a, b]) == None
  {
    NoJNoMatch(a);
    NoJNoMatch(b);
    NoQualifyingColumn(a, b);
  }
}
