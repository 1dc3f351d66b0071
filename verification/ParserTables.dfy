// The packed tables of the Maxima parser, one source row to a line.

/** The `Row` helper keeps a table readable and lets the verifier split a lookup by halves. */
module TableRows {
  /** Entry number `k` of one printed row of a table. */
  function Row(k: int, a: int, b: int, c: int, d: int, e: int,
               f: int, g: int, h: int, i: int, j: int): int {
    if k < 5 then
      (if k < 2 then (if k < 1 then a else b) else if k < 3 then c else if k < 4 then d else e)
    else
      (if k < 7 then (if k < 6 then f else g) else if k < 8 then h else if k < 9 then i else j)
  }
}

/** Tables of the LALR(1) driver. */
module ParserTables {
  import opened TableRows

  const YYFINAL := 6
  const YYLAST := 297
  const YYNTOKENS := 34
  const YYPACT_NINF := -28
  const YYTABLE_NINF := -1
  const YYINITDEPTH := 200
  const YYMAXDEPTH := 10000

  /** The symbol that rule `r` derives. */
  function YyR1(r: int): int {
    if r < 10 then Row(r, 0, 34, 35, 35, 36, 37, 38, 38, 38, 39) else
    if r < 20 then Row(r - 10, 39, 39, 39, 39, 39, 39, 40, 40, 41, 41) else
    if r < 30 then Row(r - 20, 41, 41, 41, 41, 41, 41, 41, 41, 41, 41) else
    if r < 40 then Row(r - 30, 41, 41, 41, 41, 42, 42, 43, 43, 44, 45) else
    Row(r - 40, 46, 46, 47, 0, 0, 0, 0, 0, 0, 0)
  }

  /** The number of symbols on the right of rule `r`. */
  function YyR2(r: int): int {
    if r < 10 then Row(r, 0, 2, 1, 3, 1, 1, 1, 3, 5, 1) else
    if r < 20 then Row(r - 10, 1, 1, 1, 3, 1, 1, 4, 6, 3, 3) else
    if r < 30 then Row(r - 20, 3, 3, 3, 3, 3, 3, 3, 3, 3, 3) else
    if r < 40 then Row(r - 30, 6, 4, 4, 2, 1, 3, 1, 1, 0, 1) else
    Row(r - 40, 1, 1, 1, 0, 0, 0, 0, 0, 0, 0)
  }

  /** The default reduction of state `s`; 0 means error. */
  function YyDefact(s: int): int {
    if s < 10 then Row(s, 0, 4, 5, 0, 2, 0, 1, 40, 41, 0) else
    if s < 20 then Row(s - 10, 0, 0, 0, 9, 39, 42, 0, 38, 0, 0) else
    if s < 30 then Row(s - 20, 6, 15, 14, 10, 11, 12, 0, 0, 0, 0) else
    if s < 40 then Row(s - 30, 33, 38, 34, 37, 0, 36, 0, 3, 0, 0) else
    if s < 50 then Row(s - 40, 0, 0, 0, 0, 0, 0, 0, 0, 0, 0) else
    if s < 60 then Row(s - 50, 0, 0, 0, 0, 0, 0, 7, 13, 26, 27) else
    if s < 70 then Row(s - 60, 29, 28, 22, 23, 24, 19, 18, 20, 21, 25) else
    if s < 80 then Row(s - 70, 0, 31, 32, 16, 0, 35, 0, 0, 8, 30) else
    Row(s - 80, 17, 0, 0, 0, 0, 0, 0, 0, 0, 0)
  }

  /** The default goto of nonterminal `n` (counted from YYNTOKENS). */
  function YyDefgoto(n: int): int {
    if n < 10 then Row(n, -1, 3, 4, 5, 19, 32, 21, 22, 33, 34) else
    Row(n - 10, 35, 23, 24, 25, 0, 0, 0, 0, 0, 0)
  }

  /** Where state `s` starts in YyTable. */
  function YyPact(s: int): int {
    if s < 10 then Row(s, 16, -28, -28, 6, -28, 173, -28, -28, -28, -27) else
    if s < 20 then Row(s - 10, -23, -19, 223, -28, -28, -28, 223, 198, 223, 29) else
    if s < 30 then Row(s - 20, 247, -28, -28, -28, -28, -28, 223, 223, 223, 237) else
    if s < 40 then Row(s - 30, -24, 223, 247, 12, 17, -28, 78, -28, 223, 223) else
    if s < 50 then Row(s - 40, 223, 223, 223, 223, 223, 223, 223, 223, 223, 223) else
    if s < 60 then Row(s - 50, 55, 101, 124, 223, 19, 223, -28, -28, 4, 4) else
    if s < 70 then Row(s - 60, 270, 270, 4, 4, 4, -24, -24, 30, 30, -28) else
    if s < 80 then Row(s - 70, 223, -28, -28, -9, 26, 247, 147, 223, -28, -28) else
    Row(s - 80, 28, 0, 0, 0, 0, 0, 0, 0, 0, 0)
  }

  /** Where nonterminal `n` starts in YyTable. */
  function YyPgoto(n: int): int {
    if n < 10 then Row(n, -28, -28, 27, -28, -28, -5, -28, -28, -28, 31) else
    Row(n - 10, -28, -28, -28, -28, 0, 0, 0, 0, 0, 0)
  }

  /** Packed actions: positive is a shift, YYTABLE_NINF an error, any other a reduction. */
  function YyTable(i: int): int {
    if i < 10 then Row(i, 20, 47, 48, 49, 26, 77, 6, 29, 27, -1) else
    if i < 20 then Row(i - 10, -1, 30, 28, 36, 45, 46, 47, 48, 49, 1) else
    if i < 30 then Row(i - 20, 2, 50, 51, 52, -1, -1, -1, 45, 46, 47) else
    if i < 40 then Row(i - 30, 48, 49, 1, 58, 59, 60, 61, 62, 63, 64) else
    if i < 50 then Row(i - 40, 65, 66, 67, 68, 69, 55, 37, 56, 73, 74) else
    if i < 60 then Row(i - 50, 75, 45, 46, 47, 48, 49, 78, 49, 0, 0) else
    if i < 70 then Row(i - 60, 38, 39, 54, 0, 0, 76, 0, 0, 0, 0) else
    if i < 80 then Row(i - 70, 0, 0, 80, 40, 41, 42, 43, 44, 45, 46) else
    if i < 90 then Row(i - 80, 47, 48, 49, 38, 39, 0, 0, 0, 70, 0) else
    if i < 100 then Row(i - 90, 0, 0, 0, 0, 0, 0, 40, 41, 42, 43) else
    if i < 110 then Row(i - 100, 44, 45, 46, 47, 48, 49, 38, 39, 0, 0) else
    if i < 120 then Row(i - 110, 57, 0, 0, 0, 0, 0, 0, 0, 0, 40) else
    if i < 130 then Row(i - 120, 41, 42, 43, 44, 45, 46, 47, 48, 49, 38) else
    if i < 140 then Row(i - 130, 39, 0, 0, 71, 0, 0, 0, 0, 0, 0) else
    if i < 150 then Row(i - 140, 0, 0, 40, 41, 42, 43, 44, 45, 46, 47) else
    if i < 160 then Row(i - 150, 48, 49, 38, 39, 0, 0, 72, 0, 0, 0) else
    if i < 170 then Row(i - 160, 0, 0, 0, 0, 0, 40, 41, 42, 43, 44) else
    if i < 180 then Row(i - 170, 45, 46, 47, 48, 49, 0, 0, 0, 0, 79) else
    if i < 190 then Row(i - 180, 7, 8, 9, 10, 11, 12, 0, 0, 13, 14) else
    if i < 200 then Row(i - 190, 15, 0, 0, 0, 0, 0, 16, 0, 0, 0) else
    if i < 210 then Row(i - 200, 0, 0, 17, 0, 18, 7, 8, 9, 10, 11) else
    if i < 220 then Row(i - 210, 12, 0, 0, 13, 14, 15, 0, 0, 0, 0) else
    if i < 230 then Row(i - 220, 0, 16, 0, 0, 0, 0, 0, 31, 0, 18) else
    if i < 240 then Row(i - 230, 7, 8, 9, 10, 11, 12, 0, 0, 13, 14) else
    if i < 250 then Row(i - 240, 15, 0, 38, 39, 0, 0, 16, 0, 0, 0) else
    if i < 260 then Row(i - 250, 53, 0, 38, 39, 18, 40, 41, 42, 43, 44) else
    if i < 270 then Row(i - 260, 45, 46, 47, 48, 49, 40, 41, 42, 43, 44) else
    if i < 280 then Row(i - 270, 45, 46, 47, 48, 49, 38, 39, 0, 0, 0) else
    if i < 290 then Row(i - 280, 0, 0, 0, 0, 0, 0, 0, 0, 0, 0) else
    Row(i - 290, 42, 43, 44, 45, 46, 47, 48, 49, 0, 0)
  }

  /** Which token or state owns entry `i` of YyTable. */
  function YyCheck(i: int): int {
    if i < 10 then Row(i, 5, 25, 26, 27, 31, 14, 0, 12, 31, 5) else
    if i < 20 then Row(i - 10, 6, 16, 31, 18, 23, 24, 25, 26, 27, 3) else
    if i < 30 then Row(i - 20, 4, 26, 27, 28, 20, 21, 22, 23, 24, 25) else
    if i < 40 then Row(i - 30, 26, 27, 3, 38, 39, 40, 41, 42, 43, 44) else
    if i < 50 then Row(i - 40, 45, 46, 47, 48, 49, 33, 19, 30, 53, 30) else
    if i < 60 then Row(i - 50, 55, 23, 24, 25, 26, 27, 30, 27, -1, -1) else
    if i < 70 then Row(i - 60, 5, 6, 31, -1, -1, 70, -1, -1, -1, -1) else
    if i < 80 then Row(i - 70, -1, -1, 77, 18, 19, 20, 21, 22, 23, 24) else
    if i < 90 then Row(i - 80, 25, 26, 27, 5, 6, -1, -1, -1, 33, -1) else
    if i < 100 then Row(i - 90, -1, -1, -1, -1, -1, -1, 18, 19, 20, 21) else
    if i < 110 then Row(i - 100, 22, 23, 24, 25, 26, 27, 5, 6, -1, -1) else
    if i < 120 then Row(i - 110, 32, -1, -1, -1, -1, -1, -1, -1, -1, 18) else
    if i < 130 then Row(i - 120, 19, 20, 21, 22, 23, 24, 25, 26, 27, 5) else
    if i < 140 then Row(i - 130, 6, -1, -1, 32, -1, -1, -1, -1, -1, -1) else
    if i < 150 then Row(i - 140, -1, -1, 18, 19, 20, 21, 22, 23, 24, 25) else
    if i < 160 then Row(i - 150, 26, 27, 5, 6, -1, -1, 32, -1, -1, -1) else
    if i < 170 then Row(i - 160, -1, -1, -1, -1, -1, 18, 19, 20, 21, 22) else
    if i < 180 then Row(i - 170, 23, 24, 25, 26, 27, -1, -1, -1, -1, 32) else
    if i < 190 then Row(i - 180, 7, 8, 9, 10, 11, 12, -1, -1, 15, 16) else
    if i < 200 then Row(i - 190, 17, -1, -1, -1, -1, -1, 23, -1, -1, -1) else
    if i < 210 then Row(i - 200, -1, -1, 29, -1, 31, 7, 8, 9, 10, 11) else
    if i < 220 then Row(i - 210, 12, -1, -1, 15, 16, 17, -1, -1, -1, -1) else
    if i < 230 then Row(i - 220, -1, 23, -1, -1, -1, -1, -1, 29, -1, 31) else
    if i < 240 then Row(i - 230, 7, 8, 9, 10, 11, 12, -1, -1, 15, 16) else
    if i < 250 then Row(i - 240, 17, -1, 5, 6, -1, -1, 23, -1, -1, -1) else
    if i < 260 then Row(i - 250, 13, -1, 5, 6, 31, 18, 19, 20, 21, 22) else
    if i < 270 then Row(i - 260, 23, 24, 25, 26, 27, 18, 19, 20, 21, 22) else
    if i < 280 then Row(i - 270, 23, 24, 25, 26, 27, 5, 6, -1, -1, -1) else
    if i < 290 then Row(i - 280, -1, -1, -1, -1, -1, -1, -1, -1, -1, -1) else
    Row(i - 290, 20, 21, 22, 23, 24, 25, 26, 27, 0, 0)
  }

  /** The accessing symbol of state `s`. */
  function YyStos(s: int): int {
    if s < 10 then Row(s, 0, 3, 4, 35, 36, 37, 0, 7, 8, 9) else
    if s < 20 then Row(s - 10, 10, 11, 12, 15, 16, 17, 23, 29, 31, 38) else
    if s < 30 then Row(s - 20, 39, 40, 41, 45, 46, 47, 31, 31, 31, 39) else
    if s < 40 then Row(s - 30, 39, 29, 39, 42, 43, 44, 39, 36, 5, 6) else
    if s < 50 then Row(s - 40, 18, 19, 20, 21, 22, 23, 24, 25, 26, 27) else
    if s < 60 then Row(s - 50, 39, 39, 39, 13, 43, 33, 30, 32, 39, 39) else
    if s < 70 then Row(s - 60, 39, 39, 39, 39, 39, 39, 39, 39, 39, 39) else
    if s < 80 then Row(s - 70, 33, 32, 32, 39, 30, 39, 39, 14, 30, 32) else
    Row(s - 80, 39, 0, 0, 0, 0, 0, 0, 0, 0, 0)
  }

  /** The right side of each rule. */
  function Rhs(r: int): seq<int> {
    match r
    case 1 => [35, 0]
    case 2 => [36]
    case 3 => [37, 38, 36]
    case 4 => [3]
    case 5 => [4]
    case 6 => [39]
    case 7 => [29, 43, 30]
    case 8 => [29, 29, 43, 30, 30]
    case 9 => [15]
    case 10 => [45]
    case 11 => [46]
    case 12 => [47]
    case 13 => [31, 39, 32]
    case 14 => [41]
    case 15 => [40]
    case 16 => [12, 39, 13, 39]
    case 17 => [12, 39, 13, 39, 14, 39]
    case 18 => [39, 24, 39]
    case 19 => [39, 23, 39]
    case 20 => [39, 25, 39]
    case 21 => [39, 26, 39]
    case 22 => [39, 20, 39]
    case 23 => [39, 21, 39]
    case 24 => [39, 22, 39]
    case 25 => [39, 27, 39]
    case 26 => [39, 5, 39]
    case 27 => [39, 6, 39]
    case 28 => [39, 19, 39]
    case 29 => [39, 18, 39]
    case 30 => [9, 31, 39, 33, 39, 32]
    case 31 => [10, 31, 39, 32]
    case 32 => [11, 31, 39, 32]
    case 33 => [23, 39]
    case 34 => [39]
    case 35 => [42, 33, 39]
    case 36 => [44]
    case 37 => [42]
    case 38 => []
    case 39 => [16]
    case 40 => [7]
    case 41 => [8]
    case 42 => [17]
    case _ => []
  }

  /** The parser's symbol number for a token code: YYTRANSLATE after the end-of-file test. */
  function Translate(code: int): int {
    if code <= 0 then 0
    else if 258 <= code <= 275 then (if code == 275 then 28 else code - 255)
    else if code == 256 then 1
    else if code == 40 then 31 else if code == 41 then 32 else if code == 42 then 25
    else if code == 43 then 24 else if code == 44 then 33 else if code == 45 then 23
    else if code == 47 then 26 else if code == 60 then 21 else if code == 61 then 20
    else if code == 62 then 22 else if code == 91 then 29 else if code == 93 then 30
    else if code == 94 then 27
    else 2
  }
}
