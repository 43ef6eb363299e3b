/** MiniGo's coordinate conversions. A MiniGo coordinate is a (row, column)
    pair counted from the upper-left corner, or None for a pass; it is mapped
    to and from four other forms: a flattened index, an SGF letter pair, a KGS
    letter-and-number string and a pygtp (column, row) tuple counted from the
    lower-left corner. The board side `n` and the GTP sentinels come from
    other modules of the program and are a parameter and a datatype here. */
module Coords {

  import opened Wrappers
  import opened PyText

  /** SGF column letters; more than 19 so that larger boards fit. The one
      52-letter string is written as its lower-case and upper-case halves. */
  const SgfColumns: string := "abcdefghijklmnopqrstuvwxyz" + "ABCDEFGHIJKLMNOPQRSTUVWXYZ"

  /** KGS column letters: the letter I is skipped. */
  const KgsColumns: string := "ABCDEFGHJKLMNOPQRSTUVWXYZ"

  /** A board point as (row, column), row 0 being the top row. */
  type Point = (int, int)

  /** A MiniGo coordinate; None is a pass. */
  type Coord = Option<Point>

  /** A GTP move as pygtp gives it: a (column, row) vertex or the resign
      sentinel, which is distinct from every vertex. */
  datatype GtpMove = Vertex(x: int, y: int) | Resign

  /** The GTP pass sentinel. */
  const GtpPass: GtpMove := Vertex(0, 0)

  predicate OnBoard(n: int, p: Point) {
    0 <= p.0 < n && 0 <= p.1 < n
  }

  // ---------------------------------------------------------------- alphabets

  /** The i-th SGF column letter: a..z, then A..Z. */
  function SgfLetter(i: int): char
    requires 0 <= i < 52
  {
    if i < 26 then ('a' as int + i) as char else ('A' as int + i - 26) as char
  }

  /** The i-th KGS column letter: A..H, then J..Z, skipping I. */
  function KgsLetter(i: int): char
    requires 0 <= i < 25
  {
    if i < 8 then ('A' as int + i) as char else ('A' as int + i + 1) as char
  }

  lemma SgfColumnsShape()
    ensures SgfColumns == seq(52, SgfLetter)
  {
    var lower := "abcdefghijklmnopqrstuvwxyz";
    var upper := "ABCDEFGHIJKLMNOPQRSTUVWXYZ";
    assert forall i :: 0 <= i < 26 ==> lower[i] == ('a' as int + i) as char;
    assert forall i :: 0 <= i < 26 ==> upper[i] == ('A' as int + i) as char;
  }

  lemma KgsColumnsShape()
    ensures KgsColumns == seq(25, KgsLetter)
  {
  }

  /** No SGF letter is used for two columns. */
  lemma SgfColumnsDistinct()
    ensures Distinct(SgfColumns)
  {
    SgfColumnsShape();
    assert forall i, j :: 0 <= i < j < 52 ==> SgfLetter(i) != SgfLetter(j);
  }

  /** The KGS letters are upper-case ASCII letters in increasing order, so no
      letter is used for two columns, upper-casing keeps each one, and I is
      not among them. */
  lemma KgsColumnsLetters()
    ensures |KgsColumns| == 25
    ensures forall i :: 0 <= i < |KgsColumns| ==>
      'A' <= KgsColumns[i] <= 'Z' && KgsColumns[i] != 'I' && UpperChar(KgsColumns[i]) == KgsColumns[i]
    ensures 'I' !in KgsColumns
  {
    KgsColumnsShape();
  }

  lemma KgsColumnsDistinct()
    ensures Distinct(KgsColumns)
  {
    KgsColumnsShape();
    assert forall i, j :: 0 <= i < j < 25 ==> KgsLetter(i) < KgsLetter(j);
  }

  /** Because I is skipped, J is column 8 rather than 9. */
  lemma KgsColumnOfJ()
    ensures 'J' in KgsColumns && IndexOf(KgsColumns, 'J') == 8
  {
    KgsColumnsShape();
    KgsColumnsDistinct();
    IndexOfAt(KgsColumns, 8);
  }

  // --------------------------------------------------------------------- flat

  /** from_flat: `n * n` is a pass, any other index is split by `divmod`.
      The source names the parameter `coord` while its body reads `flat`, so
      as written it fails with a NameError; this is the evident intent. Python's
      floor `divmod` agrees with Dafny's `/` and `%` for a positive divisor. */
  function FromFlat(n: int, flat: int): (c: Coord)
    requires n > 0
    ensures c.None? <==> flat == n * n
    ensures c.Some? ==> n * c.value.0 + c.value.1 == flat && 0 <= c.value.1 < n
  {
    if flat == n * n then None else Some((flat / n, flat % n))
  }

  /** from_flat exactly as written: the parameter is named `coord` but the
      body reads `flat`, a name the module does not define, so every call
      raises NameError before any arithmetic is done. */
  function FromFlatAsWritten(n: int, coord: int): (r: Result<Coord, string>)
    ensures r.Failure?
  {
    Failure("NameError: name 'flat' is not defined")
  }

  /** Row-major index of a point on the board stays below `n * n`. */
  lemma CellIndexBound(n: int, p: Point)
    requires OnBoard(n, p)
    ensures 0 <= n * p.0 + p.1 < n * n
  {
    MulNonNegative(n, p.0);
    MulNonNegative(n, n - 1 - p.0);
    assert n * (n - 1 - p.0) == n * n - n - n * p.0;
  }

  /** The product of two non-negative integers is non-negative. */
  lemma MulNonNegative(a: int, b: int)
    requires a >= 0 && b >= 0
    ensures a * b >= 0
  {
  }

  /** to_flat: a pass is `n * n`, a point is its row-major index. */
  function ToFlat(n: int, c: Coord): (f: int)
    ensures c.None? ==> f == n * n
    ensures c.Some? && OnBoard(n, c.value) ==> 0 <= f < n * n
  {
    match c
    case None => n * n
    case Some(p) =>
      if OnBoard(n, p) then CellIndexBound(n, p); n * p.0 + p.1
      else n * p.0 + p.1
  }

  /** Every index in [0, n*n) decodes to a point on the board. */
  lemma FlatDecodesOnBoard(n: int, flat: int)
    requires n > 0 && 0 <= flat < n * n
    ensures FromFlat(n, flat).Some? && OnBoard(n, FromFlat(n, flat).value)
  {
  }

  /** `n * k >= n` for a positive `n` and `k`. */
  lemma MulAtLeast(n: int, k: int)
    requires n > 0 && k >= 1
    ensures n * k >= n
  {
    assert n * k == n * (k - 1) + n;
    assert n * (k - 1) >= 0;
  }

  /** A row-major split with remainders in [0, n) is unique. */
  lemma SplitUnique(n: int, a: int, b: int, c: int, d: int)
    requires n > 0 && 0 <= b < n && 0 <= d < n && n * a + b == n * c + d
    ensures a == c && b == d
  {
    assert n * (a - c) == d - b;
    if a > c {
      MulAtLeast(n, a - c);
    } else if a < c {
      MulAtLeast(n, c - a);
    }
  }

  /** Flattening a point of the board and expanding it gives the point back. */
  lemma FlatRoundTrip(n: int, p: Point)
    requires OnBoard(n, p)
    ensures FromFlat(n, ToFlat(n, Some(p))) == Some(p)
  {
    var f := ToFlat(n, Some(p));
    var q := FromFlat(n, f).value;
    SplitUnique(n, q.0, q.1, p.0, p.1);
  }

  /** As written, from_flat returns nothing at all, so not even the upper-left
      corner survives flattening and expanding. */
  lemma FlatRoundTripAsWrittenFails(n: int)
    requires n > 0
    ensures FromFlatAsWritten(n, ToFlat(n, Some((0, 0)))).Failure?
    ensures FromFlat(n, ToFlat(n, Some((0, 0)))) == Some((0, 0))
  {
    FlatRoundTrip(n, (0, 0));
  }

  /** Expanding any index and flattening it gives the index back; in
      particular `n * n` is the pass and nothing else is. */
  lemma FlatDecodeEncode(n: int, flat: int)
    requires n > 0
    ensures ToFlat(n, FromFlat(n, flat)) == flat
  {
  }

  // ---------------------------------------------------------------------- SGF

  /** The SGF strings from_sgf reads without raising: None, the empty string,
      or a string whose first two characters are SGF column letters. */
  predicate SgfDecodable(s: Option<string>) {
    s == None || s == Some("") || (|s.value| >= 2 && s.value[0] in SgfColumns && s.value[1] in SgfColumns)
  }

  /** from_sgf: None and '' are a pass; otherwise the first letter is the
      column and the second the row. */
  function FromSgf(s: Option<string>): (c: Coord)
    requires SgfDecodable(s)
    ensures c.None? <==> (s == None || s == Some(""))
    ensures c.Some? ==>
      && 0 <= c.value.0 < |SgfColumns| && 0 <= c.value.1 < |SgfColumns|
      && SgfColumns[c.value.1] == s.value[0] && SgfColumns[c.value.0] == s.value[1]
  {
    if s == None || s == Some("") then None
    else Some((IndexOf(SgfColumns, s.value[1]), IndexOf(SgfColumns, s.value[0])))
  }

  /** The coordinates to_sgf can subscript the alphabet with. */
  predicate SgfEncodable(c: Coord) {
    c.Some? ==> Subscriptable(SgfColumns, c.value.0) && Subscriptable(SgfColumns, c.value.1)
  }

  /** to_sgf: a pass is '', a point is its column letter then its row letter. */
  function ToSgf(c: Coord): (s: string)
    requires SgfEncodable(c)
    ensures c.None? <==> s == ""
    ensures c.Some? ==> |s| == 2 && s[0] == At(SgfColumns, c.value.1) && s[1] == At(SgfColumns, c.value.0)
    ensures SgfDecodable(Some(s))
  {
    match c
    case None => ""
    case Some(p) => [At(SgfColumns, p.1)] + [At(SgfColumns, p.0)]
  }

  /** Every point with both indices below 52 (so every point of a board of
      side at most 52) survives SGF encoding and decoding. */
  lemma SgfRoundTrip(p: Point)
    requires 0 <= p.0 < 52 && 0 <= p.1 < 52
    ensures FromSgf(Some(ToSgf(Some(p)))) == Some(p)
  {
    var s := ToSgf(Some(p));
    SgfColumnsDistinct();
    IndexOfAt(SgfColumns, p.0);
    IndexOfAt(SgfColumns, p.1);
    assert s[0] == SgfColumns[p.1] && s[1] == SgfColumns[p.0];
  }

  /** Decoding and re-encoding an SGF string keeps its first two letters and
      drops the rest; None and '' both become ''. */
  lemma SgfDecodeEncode(s: Option<string>)
    requires SgfDecodable(s)
    ensures ToSgf(FromSgf(s)) == if s == None || s == Some("") then "" else s.value[..2]
  {
  }

  // ---------------------------------------------------------------------- KGS

  /** The KGS strings from_kgs reads without raising: 'pass', or a string whose
      upper-cased first character is a KGS column letter and whose remainder
      is an integer literal. */
  predicate KgsDecodable(s: string) {
    s == "pass" || KgsToken(Upper(s))
  }

  /** An upper-cased KGS string from_kgs can read as a point: a column letter
      followed by an integer literal. */
  predicate KgsToken(u: string) {
    |u| >= 1 && u[0] in KgsColumns && IsIntLiteral(u[1..])
  }

  /** from_kgs: 'pass' is a pass; otherwise the upper-cased letter is the
      column and the number is the row counted from the bottom, starting at 1. */
  function FromKgs(n: int, s: string): (c: Coord)
    requires KgsDecodable(s)
    ensures c.None? <==> s == "pass"
    ensures c.Some? ==>
      && 0 <= c.value.1 < |KgsColumns|
      && KgsColumns[c.value.1] == UpperChar(s[0])
      && n - c.value.0 == ParseInt(Upper(s)[1..])
  {
    if s == "pass" then None
    else
      var u := Upper(s);
      var col := IndexOf(KgsColumns, u[0]);
      var rowFromBottom := ParseInt(u[1..]);
      Some((n - rowFromBottom, col))
  }

  /** The coordinates to_kgs can subscript the alphabet with. */
  predicate KgsEncodable(c: Coord) {
    c.Some? ==> Subscriptable(KgsColumns, c.value.1)
  }

  /** to_kgs: a pass is 'pass'; a point is its column letter followed by the
      decimal number of its row counted from the bottom, `n - row`. */
  function ToKgs(n: int, c: Coord): (s: string)
    requires KgsEncodable(c)
    ensures c.None? <==> s == "pass"
    ensures c.Some? ==>
      && |s| >= 2 && s[0] == At(KgsColumns, c.value.1)
      && IsIntLiteral(s[1..]) && ParseInt(s[1..]) == n - c.value.0
    ensures KgsDecodable(s)
  {
    match c
    case None => "pass"
    case Some(p) =>
      var s := [At(KgsColumns, p.1)] + IntToDecimal(n - p.0);
      KgsColumnsLetters();
      assert s[1..] == IntToDecimal(n - p.0);
      ParseIntRoundTrip(n - p.0);
      UpperKeepsIntLiteral(s[1..]);
      UpperSplit(s);
      assert Upper(s) == s;
      s
  }

  /** Every point whose column has a KGS letter survives KGS encoding and
      decoding, whatever its row. */
  lemma KgsRoundTrip(n: int, p: Point)
    requires 0 <= p.1 < 25
    ensures FromKgs(n, ToKgs(n, Some(p))) == Some(p)
  {
    var s := ToKgs(n, Some(p));
    var t := s[1..];
    UpperKeepsIntLiteral(t);
    UpperSplit(s);
    assert UpperChar(s[0]) == KgsColumns[p.1] by { KgsColumnsLetters(); }
    var c := FromKgs(n, s);
    var q := c.value;
    assert KgsColumns[q.1] == KgsColumns[p.1];
    assert q.1 == p.1 by { KgsColumnsDistinct(); }
    assert Upper(s)[1..] == t;
    assert n - q.0 == ParseInt(t) == n - p.0;
    assert q.0 == p.0;
    assert q.1 == p.1;
    assert q == p;
    assert c == Some(q);
  }

  /** The point an upper-cased KGS token names. */
  function ReadKgsToken(n: int, u: string): Point
    requires KgsToken(u)
  {
    (n - ParseInt(u[1..]), IndexOf(KgsColumns, u[0]))
  }

  /** What from_kgs reads is the upper-cased string. */
  lemma FromKgsReadsUpper(n: int, s: string)
    requires KgsDecodable(s) && s != "pass"
    ensures KgsToken(Upper(s)) && FromKgs(n, s) == Some(ReadKgsToken(n, Upper(s)))
  {
  }

  /** from_kgs ignores case: two strings other than 'pass' that upper-case to
      the same string are both readable or both not, and read the same. */
  lemma KgsCaseInsensitive(n: int, s: string, t: string)
    requires s != "pass" && t != "pass" && Upper(s) == Upper(t)
    ensures KgsDecodable(s) <==> KgsDecodable(t)
    ensures KgsDecodable(s) ==> FromKgs(n, s) == FromKgs(n, t)
  {
    var u := Upper(s);
    assert KgsDecodable(s) == KgsToken(u) == KgsDecodable(t);
    if KgsToken(u) {
      FromKgsReadsUpper(n, s);
      FromKgsReadsUpper(n, t);
    }
  }

  /** Only the exact lower-case token is a pass: it is compared before
      upper-casing, and any other spelling is read as a letter and a number,
      which "ASS" is not. */
  lemma KgsPassCaseSensitive()
    ensures KgsDecodable("pass") && FromKgs(19, "pass") == None
    ensures !KgsDecodable("PASS") && !KgsDecodable("Pass")
  {
    assert Upper("PASS")[1..] == "ASS";
    assert Upper("Pass")[1..] == "ASS";
    assert !IsDigit('A');
  }

  // -------------------------------------------------------------------- pygtp

  /** from_pygtp: both the pass and the resign sentinel are a pass; a vertex
      (x, y) is column x - 1 and row n - y. */
  function FromPygtp(n: int, v: GtpMove): (c: Coord)
    ensures c.None? <==> (v == GtpPass || v == Resign)
    ensures c.Some? ==> v == Vertex(c.value.1 + 1, n - c.value.0)
  {
    if v == GtpPass || v == Resign then None else Some((n - v.y, v.x - 1))
  }

  /** to_pygtp: a pass is the pass sentinel, never resign; a point of the
      board becomes a 1-based vertex counted from the lower-left corner,
      which is never the pass sentinel. */
  function ToPygtp(n: int, c: Coord): (v: GtpMove)
    ensures v != Resign
    ensures c.None? ==> v == GtpPass
    ensures c.Some? ==> v.Vertex? && v.x - 1 == c.value.1 && n - v.y == c.value.0
    ensures c.Some? && OnBoard(n, c.value) ==> 1 <= v.x <= n && 1 <= v.y <= n && v != GtpPass
  {
    match c
    case None => GtpPass
    case Some(p) => Vertex(p.1 + 1, n - p.0)
  }

  /** A point survives pygtp encoding and decoding exactly when it is not the
      off-board point (n, -1), the one whose vertex is the pass sentinel; so
      every point of the board does. */
  lemma PygtpRoundTrip(n: int, p: Point)
    ensures FromPygtp(n, ToPygtp(n, Some(p))) == Some(p) <==> p != (n, -1)
  {
    if p == (n, -1) {
      assert ToPygtp(n, Some(p)) == GtpPass;
    }
  }

  /** Decoding and re-encoding a pygtp move gives it back, except that resign
      comes back as the pass sentinel: the mapping is not bijective. */
  lemma PygtpDecodeEncode(n: int, v: GtpMove)
    ensures ToPygtp(n, FromPygtp(n, v)) == if v == Resign then GtpPass else v
  {
  }

  // -------------------------------------------------------------------- pass

  /** The pass has one representation per form, and each decodes to a pass. */
  lemma PassRoundTrips(n: int)
    requires n > 0
    ensures ToFlat(n, None) == n * n && FromFlat(n, n * n) == None
    ensures ToSgf(None) == "" && FromSgf(Some("")) == None && FromSgf(None) == None
    ensures ToKgs(n, None) == "pass" && FromKgs(n, "pass") == None
    ensures ToPygtp(n, None) == GtpPass && FromPygtp(n, GtpPass) == None && FromPygtp(n, Resign) == None
  {
  }

  /** The KGS text of a point in a known column, unfolded. */
  lemma KgsTextOf(n: int, p: Point)
    requires 0 <= p.1 < 25
    ensures ToKgs(n, Some(p)) == [KgsColumns[p.1]] + IntToDecimal(n - p.0)
  {
  }

  /** The decimal forms of the two KGS row numbers the 19x19 table uses. */
  lemma Board19Decimals()
    ensures IntToDecimal(19) == "19" && IntToDecimal(1) == "1"
  {
    assert NatToDecimal(1) == "1";
  }

  // The table of a 19x19 board: the upper-left corner (0, 0), the upper-right
  // corner (0, 18) and the pass in every form, plus the lower-left corner (18, 0).

  lemma Board19Flat()
    ensures ToFlat(19, Some((0, 0))) == 0 && FromFlat(19, 0) == Some((0, 0))
    ensures ToFlat(19, Some((0, 18))) == 18 && FromFlat(19, 18) == Some((0, 18))
    ensures ToFlat(19, None) == 361 && FromFlat(19, 361) == None
  {
  }

  lemma Board19Sgf()
    ensures ToSgf(Some((0, 0))) == "aa" && FromSgf(Some("aa")) == Some((0, 0))
    ensures ToSgf(Some((0, 18))) == "sa" && FromSgf(Some("sa")) == Some((0, 18))
    ensures ToSgf(None) == "" && FromSgf(Some("")) == None
  {
    assert ToSgf(Some((0, 0))) == "aa" by {
      var s := ToSgf(Some((0, 0)));
      assert SgfColumns[0] == 'a' by { SgfColumnsShape(); assert SgfLetter(0) == 'a'; }
      assert s == ['a'] + ['a'];
    }
    assert ToSgf(Some((0, 18))) == "sa" by {
      var s := ToSgf(Some((0, 18)));
      assert SgfColumns[0] == 'a' && SgfColumns[18] == 's' by {
        SgfColumnsShape();
        assert SgfLetter(0) == 'a' && SgfLetter(18) == 's';
      }
      assert s == ['s'] + ['a'];
    }
    SgfRoundTrip((0, 0));
    SgfRoundTrip((0, 18));
  }

  lemma Board19KgsUpperLeft()
    ensures ToKgs(19, Some((0, 0))) == "A19"
  {
    Board19Decimals();
    assert KgsColumns[0] == 'A' by { KgsColumnsShape(); assert KgsLetter(0) == 'A'; }
    KgsTextOf(19, (0, 0));
  }

  lemma Board19KgsUpperRight()
    ensures ToKgs(19, Some((0, 18))) == "T19"
  {
    Board19Decimals();
    assert KgsColumns[18] == 'T' by { KgsColumnsShape(); assert KgsLetter(18) == 'T'; }
    KgsTextOf(19, (0, 18));
  }

  lemma Board19KgsLowerLeft()
    ensures ToKgs(19, Some((18, 0))) == "A1"
  {
    Board19Decimals();
    assert KgsColumns[0] == 'A' by { KgsColumnsShape(); assert KgsLetter(0) == 'A'; }
    KgsTextOf(19, (18, 0));
  }

  /** The upper KGS corners read back. */
  lemma Board19Kgs()
    ensures KgsDecodable("A19") && FromKgs(19, "A19") == Some((0, 0))
    ensures KgsDecodable("T19") && FromKgs(19, "T19") == Some((0, 18))
  {
    Board19KgsUpperLeft();
    KgsRoundTrip(19, (0, 0));
    Board19KgsUpperRight();
    KgsRoundTrip(19, (0, 18));
  }

  /** The lower-left corner reads back from lower-case "a1" as from "A1". */
  lemma Board19KgsLowerCase()
    ensures KgsDecodable("a1") && FromKgs(19, "a1") == Some((18, 0))
  {
    Board19KgsLowerLeft();
    KgsRoundTrip(19, (18, 0));
    assert Upper("a1") == "A1";
    KgsCaseInsensitive(19, "a1", "A1");
  }

  lemma Board19Pygtp()
    ensures ToPygtp(19, Some((0, 0))) == Vertex(1, 19) && FromPygtp(19, Vertex(1, 19)) == Some((0, 0))
    ensures ToPygtp(19, Some((0, 18))) == Vertex(19, 19) && FromPygtp(19, Vertex(19, 19)) == Some((0, 18))
    ensures ToPygtp(19, Some((18, 0))) == Vertex(1, 1) && FromPygtp(19, Vertex(1, 1)) == Some((18, 0))
    ensures ToPygtp(19, None) == Vertex(0, 0) && FromPygtp(19, Vertex(0, 0)) == None
  {
  }

  // ------------------------------------------------------------------ convert

  /** The format tags convert understands. `Other` stands for any other tag
      string; convert treats it, and MINIGO, as "no conversion" for that leg. */
  datatype Format = Minigo | Flat | Sgf | Kgs | Pygtp | Other

  /** The tag string of each named format. */
  function TagOf(f: Format): string
    requires f != Other
  {
    match f
    case Minigo => "minigo"
    case Flat => "flat"
    case Sgf => "sgf"
    case Kgs => "kgs"
    case Pygtp => "pygtp"
  }

  /** The format a tag string selects: convert compares the tag with each
      named format's string, and any other string selects nothing. */
  function FormatOf(tag: string): (f: Format)
    ensures f != Other ==> TagOf(f) == tag
    ensures f == Other ==> forall g :: g != Other ==> TagOf(g) != tag
  {
    if tag == "minigo" then Minigo
    else if tag == "flat" then Flat
    else if tag == "sgf" then Sgf
    else if tag == "kgs" then Kgs
    else if tag == "pygtp" then Pygtp
    else Other
  }

  /** The coordinate values convert passes around, one case per format. */
  datatype Value =
    | Canonical(coord: Coord)
    | FlatIndex(index: int)
    | SgfText(sgf: Option<string>)
    | KgsText(kgs: string)
    | GtpValue(move: GtpMove)

  /** The values the first leg of convert reads without raising. */
  predicate Decodable(n: int, x: Value, from: Format) {
    match from
    case Flat => n > 0 && x.FlatIndex?
    case Sgf => x.SgfText? && SgfDecodable(x.sgf)
    case Kgs => x.KgsText? && KgsDecodable(x.kgs)
    case Pygtp => x.GtpValue?
    case _ => true
  }

  /** First leg of convert: a known source format is decoded to a MiniGo
      coordinate; MINIGO and unrecognised tags leave the value alone. */
  function ToCanonical(n: int, x: Value, from: Format): (y: Value)
    requires Decodable(n, x, from)
    ensures from == Flat ==> y == Canonical(FromFlat(n, x.index))
    ensures from == Sgf ==> y == Canonical(FromSgf(x.sgf))
    ensures from == Kgs ==> y == Canonical(FromKgs(n, x.kgs))
    ensures from == Pygtp ==> y == Canonical(FromPygtp(n, x.move))
    ensures from !in {Flat, Sgf, Kgs, Pygtp} ==> y == x
  {
    match from
    case Flat => Canonical(FromFlat(n, x.index))
    case Sgf => Canonical(FromSgf(x.sgf))
    case Kgs => Canonical(FromKgs(n, x.kgs))
    case Pygtp => Canonical(FromPygtp(n, x.move))
    case _ => x
  }

  /** The values the second leg of convert encodes without raising. */
  predicate Encodable(x: Value, to: Format) {
    match to
    case Flat => x.Canonical?
    case Sgf => x.Canonical? && SgfEncodable(x.coord)
    case Kgs => x.Canonical? && KgsEncodable(x.coord)
    case Pygtp => x.Canonical?
    case _ => true
  }

  /** The format a value is written in, when it is one of the four known ones. */
  predicate InFormat(y: Value, to: Format) {
    match to
    case Flat => y.FlatIndex?
    case Sgf => y.SgfText? && y.sgf.Some?
    case Kgs => y.KgsText?
    case Pygtp => y.GtpValue?
    case _ => true
  }

  /** Second leg of convert: a MiniGo coordinate is encoded into a known target
      format; MINIGO and unrecognised tags leave the value alone. */
  function FromCanonical(n: int, x: Value, to: Format): (y: Value)
    requires Encodable(x, to)
    ensures InFormat(y, to)
    ensures to == Flat ==> y == FlatIndex(ToFlat(n, x.coord))
    ensures to == Sgf ==> y == SgfText(Some(ToSgf(x.coord)))
    ensures to == Kgs ==> y == KgsText(ToKgs(n, x.coord))
    ensures to == Pygtp ==> y == GtpValue(ToPygtp(n, x.coord))
    ensures to !in {Flat, Sgf, Kgs, Pygtp} ==> y == x
  {
    match to
    case Flat => FlatIndex(ToFlat(n, x.coord))
    case Sgf => SgfText(Some(ToSgf(x.coord)))
    case Kgs => KgsText(ToKgs(n, x.coord))
    case Pygtp => GtpValue(ToPygtp(n, x.coord))
    case _ => x
  }

  /** convert: decode from `from` to a MiniGo coordinate, then encode to `to`.
      The result is in the target format, and a value passes through unchanged
      when neither tag is a known external format. */
  function Convert(n: int, x: Value, from: Format, to: Format): (y: Value)
    requires Decodable(n, x, from) && Encodable(ToCanonical(n, x, from), to)
    ensures InFormat(y, to)
    ensures from !in {Flat, Sgf, Kgs, Pygtp} && to !in {Flat, Sgf, Kgs, Pygtp} ==> y == x
  {
    FromCanonical(n, ToCanonical(n, x, from), to)
  }

  /** Converting between two known formats is converting to MINIGO and then
      from MINIGO. */
  lemma ConvertPivot(n: int, x: Value, from: Format, to: Format)
    requires Decodable(n, x, from) && Encodable(ToCanonical(n, x, from), to)
    ensures from in {Flat, Sgf, Kgs, Pygtp} ==> Convert(n, x, from, Minigo).Canonical?
    ensures Convert(n, x, from, to) == Convert(n, Convert(n, x, from, Minigo), Minigo, to)
  {
  }

  /** The representation of a point in a format, as convert produces it. */
  function Encode(n: int, p: Point, to: Format): Value
    requires 0 <= p.1 < 25 && 0 <= p.0 < 52
  {
    Convert(n, Canonical(Some(p)), Minigo, to)
  }

  /** The representation of a pass in a format. */
  function PassIn(n: int, f: Format): Value {
    match f
    case Flat => FlatIndex(n * n)
    case Sgf => SgfText(Some(""))
    case Kgs => KgsText("pass")
    case Pygtp => GtpValue(GtpPass)
    case _ => Canonical(None)
  }

  /** On a board of side at most 25, converting a point from any format to
      any other gives the same value as encoding the point there directly:
      nothing is lost on the way through any format. */
  lemma ConvertConsistent(n: int, p: Point, from: Format, to: Format)
    requires 0 < n <= 25 && OnBoard(n, p)
    ensures Decodable(n, Encode(n, p, from), from)
    ensures ToCanonical(n, Encode(n, p, from), from) == Canonical(Some(p))
    ensures Convert(n, Encode(n, p, from), from, to) == Encode(n, p, to)
  {
    match from {
      case Flat => FlatRoundTrip(n, p);
      case Sgf => SgfRoundTrip(p);
      case Kgs => KgsRoundTrip(n, p);
      case Pygtp => PygtpRoundTrip(n, p);
      case _ =>
    }
  }

  /** Every format's pass converts to every format's pass. */
  lemma ConvertPass(n: int, from: Format, to: Format)
    requires n > 0
    ensures Decodable(n, PassIn(n, from), from)
    ensures Convert(n, PassIn(n, from), from, to) == PassIn(n, to)
  {
  }

  /** Resign converts to a pass in every format; in particular pygtp to pygtp
      turns resign into the pass sentinel, never back into resign. */
  lemma ConvertResign(n: int, to: Format)
    ensures Convert(n, GtpValue(Resign), Pygtp, to) == PassIn(n, to)
    ensures Convert(n, GtpValue(Resign), Pygtp, Pygtp) != GtpValue(Resign)
  {
  }

  /** Converting a value to its own format normalises it (SGF keeps its first
      two letters, KGS is upper-cased and its number rewritten, resign
      becomes a pass), and a normalised value converts to itself. */
  lemma ConvertIdempotent(n: int, x: Value, f: Format)
    requires Decodable(n, x, f) && Encodable(ToCanonical(n, x, f), f)
    ensures Decodable(n, Convert(n, x, f, f), f)
    ensures Convert(n, Convert(n, x, f, f), f, f) == Convert(n, x, f, f)
  {
    var y := Convert(n, x, f, f);
    match f
    case Flat =>
      FlatDecodeEncode(n, x.index);
      assert y == x;
    case Sgf =>
      var c := FromSgf(x.sgf);
      if c.Some? {
        SgfRoundTrip(c.value);
      }
      assert ToCanonical(n, y, f) == Canonical(c);
    case Kgs =>
      var c := FromKgs(n, x.kgs);
      if c.Some? {
        KgsRoundTrip(n, c.value);
      }
      assert ToCanonical(n, y, f) == Canonical(c);
    case Pygtp =>
      var c := FromPygtp(n, x.move);
      assert y == GtpValue(ToPygtp(n, c));
      PygtpDecodeEncode(n, ToPygtp(n, c));
      assert ToCanonical(n, y, f) == Canonical(c);
    case _ =>
  }

  /** convert on the 19x19 table: the upper-right corner goes from MINIGO to
      SGF as "sa" (column letter first), from SGF "sa" to KGS as "T19", and
      from KGS "T19" to pygtp as (19, 19). */
  lemma Board19Convert()
    ensures Convert(19, Canonical(Some((0, 18))), Minigo, Sgf) == SgfText(Some("sa"))
    ensures Decodable(19, SgfText(Some("sa")), Sgf)
    ensures Convert(19, SgfText(Some("sa")), Sgf, Kgs) == KgsText("T19")
    ensures Decodable(19, KgsText("T19"), Kgs)
    ensures Convert(19, KgsText("T19"), Kgs, Pygtp) == GtpValue(Vertex(19, 19))
  {
    Board19Sgf();
    Board19KgsUpperRight();
    Board19Kgs();
    Board19Pygtp();
  }

}
