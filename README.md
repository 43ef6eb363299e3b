# MiniGo coordinate conversions, modelled and verified in Dafny

MiniGo's `coords.py` translates one board location, or the pass move,
between five forms:

- the **MiniGo coordinate** is a `(row, column)` pair counted from the
  upper-left corner. `None` is a pass.
- the **flattened** index is `N * row + column`. `N * N` is a pass.
- the **SGF** form is two letters from `a..zA..Z`, column first. `''` is a pass.
- the **KGS** form is a column letter from an alphabet without `I`, followed
  by the row number counted from the bottom. `'pass'` is a pass.
- the **pygtp** form is a 1-based `(column, row)` tuple counted from the
  lower-left corner. The GTP pass sentinel `(0, 0)` and the resign sentinel
  both read as a pass.

A dispatcher, `convert`, decodes from one named format to the MiniGo form and
then encodes into another.

The project has three files:

- `Coords.dfy` (module `Coords`) holds the two alphabets and the eight
  conversions. It also holds `convert` and the lemmas about them.
- `PyText.dfy` (module `PyText`) models the few Python built-ins that the
  conversions rely on: `str.index`, subscripts with a negative index,
  `str.upper`, `int()` and the decimal rendering of an `int` by
  `'{}'.format`.
- `Wrappers.dfy` holds the `Option` and `Result` datatypes.

The board side `N` (`go.N` in the program) is a parameter `n` of every
conversion. The GTP sentinels are modelled by the datatype
`GtpMove = Vertex(x, y) | Resign`. The pass sentinel is `Vertex(0, 0)`, as
the module's docstring table gives it. Resign is distinct from every vertex.

Each conversion works only on the inputs that Python reads without raising.
A predicate names those inputs (`SgfDecodable`, `KgsDecodable`,
`SgfEncodable`, `KgsEncodable`, and `Decodable`/`Encodable` for `convert`),
and the conversion requires it. Python's floor `divmod` agrees with Dafny's
`/` and `%` for a positive divisor, so `from_flat` is modelled on every
integer.

Where the code and its documentation differ, the model follows the code:

- `from_sgf` reads the first two characters of any longer string.
- The KGS token `'pass'` is compared before upper-casing, so `'PASS'` is not
  a pass.
- `int()` accepts a sign and leading zeros, so `'A019'` reads like `'A19'`.
- An unknown format tag leaves that leg of `convert` as a no-op.

## Model

| member | source | states |
|---|---|---|
| `Coords.SgfColumnsShape` | coords.py:55 | the SGF alphabet is `a..z` followed by `A..Z`, 52 letters |
| `Coords.SgfColumnsDistinct` | coords.py:55 | no SGF letter names two columns |
| `Coords.KgsColumnsShape` | coords.py:56 | the KGS alphabet is `A..H` followed by `J..Z`, 25 letters |
| `Coords.KgsColumnsLetters` | coords.py:26-29 | every KGS letter is an upper-case ASCII letter other than `I`, so upper-casing keeps it, and `I` is not in the alphabet |
| `Coords.KgsColumnsDistinct` | coords.py:56 | no KGS letter names two columns |
| `Coords.KgsColumnOfJ` | coords.py:56 | because `I` is skipped, `J` is column 8 |
| `Coords.FromFlat` | coords.py:59-63 | `N*N` and nothing else decodes to pass; any other index `f` gives `(r, c)` with `N*r + c == f` and `0 <= c < N` (the divmod split) |
| `Coords.FromFlatAsWritten` | coords.py:59-63 | the function as written raises NameError for every argument |
| `Coords.ToFlat` | coords.py:66-70 | pass gives `N*N`; a point on the board gives an index in `[0, N*N)`, so it never collides with pass |
| `Coords.FlatDecodesOnBoard` | coords.py:21-22 | every index in `[0, N*N)` decodes to a point on the board |
| `Coords.FlatRoundTrip` | coords.py:59-70 | flattening a point on the board and decoding it gives the point back |
| `Coords.FlatRoundTripAsWrittenFails` | coords.py:59-70 | with `from_flat` as written, even `(0, 0)` does not survive the round trip; with the intended `from_flat` it does |
| `Coords.FlatDecodeEncode` | coords.py:59-70 | decoding any integer and flattening it again gives that integer back |
| `Coords.FromSgf` | coords.py:73-76 | `None` and `''`, and nothing else, decode to pass; otherwise the first letter is the column's letter and the second is the row's letter |
| `Coords.ToSgf` | coords.py:79-82 | pass gives `''`; a point gives two letters, column first and row second (negative indices count from the end, as Python's do); the result can always be decoded |
| `Coords.SgfRoundTrip` | coords.py:73-82 | every point with both indices below 52 survives encoding and decoding |
| `Coords.SgfDecodeEncode` | coords.py:73-82 | re-encoding a decoded SGF string keeps its first two letters; `None` and `''` both come back as `''` |
| `Coords.FromKgs` | coords.py:85-91 | `'pass'`, and nothing else, decodes to pass; otherwise the column's letter is the upper-cased first character, and `N - row` is the integer the rest spells |
| `Coords.ToKgs` | coords.py:94-98 | pass gives `'pass'`; a point gives its column letter followed by an integer literal whose value is `N - row`; the result can always be decoded |
| `Coords.KgsRoundTrip` | coords.py:85-98 | every point whose column is below 25 survives encoding and decoding, whatever its row |
| `Coords.KgsCaseInsensitive` | coords.py:88-91 | two strings other than `'pass'` that upper-case alike are both decodable or both not, and decode the same |
| `Coords.KgsPassCaseSensitive` | coords.py:86-90 | `'pass'` is a pass, but `'PASS'` and `'Pass'` cannot be decoded |
| `Coords.FromPygtp` | coords.py:101-106 | the pass and resign sentinels, and nothing else, decode to pass; otherwise the vertex is `(column + 1, N - row)` |
| `Coords.ToPygtp` | coords.py:109-112 | never resign; pass gives the pass sentinel; a point gives column `c + 1` and row `N - r`; on the board both are in `[1, N]`, so the result is never the pass sentinel |
| `Coords.PygtpRoundTrip` | coords.py:101-112 | a point survives encoding and decoding exactly when it is not `(N, -1)`, the off-board point whose vertex is the pass sentinel |
| `Coords.PygtpDecodeEncode` | coords.py:101-112 | decoding and re-encoding a move gives it back, except that resign comes back as the pass sentinel |
| `Coords.PassRoundTrips` | coords.py:59-112 | in every form, pass encodes to that form's pass value and decodes back to pass; resign also decodes to pass |
| `Coords.Board19Flat` | coords.py:33-38 | on a 19x19 board, `(0,0)` is 0, `(0,18)` is 18 and pass is 361, in both directions |
| `Coords.Board19Sgf` | coords.py:33-39 | on a 19x19 board, `(0,0)` is `'aa'`, `(0,18)` is `'sa'` and pass is `''`, in both directions |
| `Coords.Board19KgsUpperLeft` | coords.py:33-40 | on a 19x19 board, `(0,0)` encodes to `'A19'` |
| `Coords.Board19KgsUpperRight` | coords.py:33-40 | on a 19x19 board, `(0,18)` encodes to `'T19'` |
| `Coords.Board19KgsLowerLeft` | coords.py:94-98 | on a 19x19 board, `(18,0)` encodes to `'A1'` |
| `Coords.Board19Kgs` | coords.py:33-40 | on a 19x19 board, `'A19'` decodes to `(0,0)` and `'T19'` decodes to `(0,18)` |
| `Coords.Board19KgsLowerCase` | coords.py:85-91 | on a 19x19 board, lower-case `'a1'` decodes to `(18,0)` |
| `Coords.Board19Pygtp` | coords.py:33-41 | on a 19x19 board, `(0,0)` is `(1,19)`, `(0,18)` is `(19,19)`, `(18,0)` is `(1,1)` and pass is `(0,0)`, in both directions |
| `Coords.FormatOf` | coords.py:48-52 | a tag selects the format whose name string it equals; any other string selects none |
| `Coords.ToCanonical` | coords.py:124-132 | the first leg applies the source format's own decoder: `from_flat` for `flat`, `from_sgf` for `sgf`, `from_kgs` for `kgs`, `from_pygtp` for `pygtp`; `minigo` and unknown tags leave the value unchanged |
| `Coords.FromCanonical` | coords.py:134-142 | the second leg applies the target format's own encoder: `to_flat`, `to_sgf`, `to_kgs` or `to_pygtp`, so the result is in that format; `minigo` and unknown tags leave the value unchanged |
| `Coords.Convert` | coords.py:115-144 | the result is in the target format; when neither tag names an external format, the value comes back unchanged; with the two legs above, `convert(x, A, B)` is `to_B(from_A(x))` |
| `Coords.Board19Convert` | coords.py:33-41 | on a 19x19 board, convert takes `(0,18)` from `minigo` to SGF `'sa'`, `'sa'` from SGF to KGS `'T19'`, and `'T19'` from KGS to pygtp `(19,19)` |
| `Coords.ConvertPivot` | coords.py:124-144 | converting from A to B equals converting from A to `minigo` and then from `minigo` to B |
| `Coords.ConvertConsistent` | coords.py:115-144 | on a board of side at most 25, converting a point from any format to any other equals encoding it into the target directly |
| `Coords.ConvertPass` | coords.py:115-144 | every format's pass converts to every format's pass |
| `Coords.ConvertResign` | coords.py:101-144 | resign converts to pass in every format; pygtp to pygtp turns resign into the pass sentinel, never resign |
| `Coords.ConvertIdempotent` | coords.py:115-144 | converting a value to its own format normalises it, and a normalised value converts to itself |
| `PyText.IndexOf` | coords.py:76 | `str.index` returns the first position holding the character |
| `PyText.IndexOfAt` | coords.py:89 | in an alphabet without repeats, `index` undoes subscripting |
| `PyText.At` | coords.py:82 | a subscript with an index in `[-len, len)` reads position `i mod len`, so a negative index counts from the end |
| `PyText.UpperChar` | coords.py:88 | `upper` maps each ASCII lower-case letter to the upper-case letter at the same alphabet position, keeps every other character, and never yields a lower-case letter |
| `PyText.Upper` | coords.py:88 | `upper` keeps the length and upper-cases character by character |
| `PyText.DigitsValue` | coords.py:90 | the last digit is the value's units digit, and a string of zeros has value 0 |
| `PyText.ParseIntValue` | coords.py:90 | `int()` is negative only after a minus sign, ignores a `+` sign, and its magnitude is the value of the digits after the sign |
| `PyText.ParseIntLeadingZero` | coords.py:90 | `int()` ignores a leading zero, with or without a minus sign, so `'A019'` reads like `'A19'` |
| `PyText.DigitsLeadingZero` | coords.py:90 | a leading zero does not change the value of a digit string |
| `PyText.UpperKeepsIntLiteral` | coords.py:88-90 | upper-casing leaves an integer literal unchanged, so `int()` sees the digits as written |
| `PyText.NatToDecimal` | coords.py:98 | the decimal form of a natural number is a non-empty string of digits with no leading zero (only `'0'` starts with `0`) |
| `PyText.IntToDecimal` | coords.py:98 | the decimal form of an int is a literal that `int()` accepts, with no `+` sign, a minus sign exactly when the int is negative, and no leading zero |
| `PyText.DigitsRoundTrip` | coords.py:90 | reading the digits of a natural number gives the number back |
| `PyText.ParseIntRoundTrip` | coords.py:90 | `int('{}'.format(i)) == i` for every int |

## Findings

| source | as written | input that shows it | evidently intended | confidence | as-written member | corrected member |
|---|---|---|---|---|---|---|
| coords.py:59-63 | the parameter is named `coord`, but the body reads `flat`, which the module does not define, so every call raises NameError | `from_flat(0)` on any board | `divmod(coord, N)`, with `N*N` mapped to pass | high (by reading the code; not executed) | `Coords.FromFlatAsWritten`, `Coords.FlatRoundTripAsWrittenFails` | `Coords.FromFlat`, `Coords.FlatRoundTrip` |

## Left out

- The modules `go` and `gtp` are not part of this model. `go.N` becomes the parameter `n`. `gtp.PASS` is `Vertex(0, 0)`, as coords.py:41 shows it. `gtp.RESIGN` is a constructor of its own, whose concrete value is not modelled.
- Exceptions are not modelled as values. Inputs on which Python raises (ValueError from `index` or `int`, IndexError from a subscript, TypeError from a value of the wrong kind) are excluded by the `requires` clauses through the `...Decodable`/`...Encodable` predicates.
- Python's `int()` is modelled only on an optional sign followed by ASCII digits. Surrounding whitespace, underscores and non-ASCII digits are left out.
- `str.upper()` is modelled on ASCII letters only. Characters whose upper case is not a single ASCII letter are left as they are. One non-ASCII input matters for KGS: the long s `'ſ'` (U+017F) upper-cases to `'S'`, so Python's `from_kgs('ſ19')` reads column `S`, while `KgsDecodable` rejects that string.
- `convert`'s untyped `coord` argument is the closed sum type `Value`. Its tag strings are the datatype `Format`, and `FormatOf` maps a tag string to it. Python's duck-typed results on mismatched values (such as `to_flat` applied to a string) are not modelled.
- Encoding a point with a negative index is modelled as Python indexes, counting from the end of the alphabet. The round-trip lemmas cover only non-negative indices, because those are the ones that round-trip.
