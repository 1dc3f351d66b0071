// The compressed automaton of the Maxima scanner, one source row to a line.

module ScannerTables {
  import opened TableRows

  /** The rule a text that ends in state `s` matches; 0 for none. */
  function YyAccept(s: int): int {
    if s < 10 then Row(s, 0, 0, 0, 0, 0, 25, 1, 1, 2, 2) else
    if s < 20 then Row(s - 10, 23, 3, 3, 16, 16, 17, 16, 16, 20, 20) else
    if s < 30 then Row(s - 20, 20, 20, 20, 20, 20, 20, 1, 0, 3, 0) else
    if s < 40 then Row(s - 30, 17, 4, 5, 20, 20, 20, 20, 20, 20, 20) else
    if s < 50 then Row(s - 40, 11, 15, 20, 20, 0, 0, 18, 14, 20, 20) else
    if s < 60 then Row(s - 50, 20, 20, 20, 20, 20, 0, 0, 0, 20, 13) else
    if s < 70 then Row(s - 60, 20, 20, 20, 12, 6, 0, 0, 0, 20, 8) else
    Row(s - 70, 7, 10, 22, 21, 19, 20, 9, 0, 0, 0)
  }

  /** The equivalence class of a byte. */
  function YyEc(b: int): int {
    if b < 10 then Row(b, 0, 1, 1, 1, 1, 1, 1, 1, 1, 2) else
    if b < 20 then Row(b - 10, 3, 1, 1, 2, 1, 1, 1, 1, 1, 1) else
    if b < 30 then Row(b - 20, 1, 1, 1, 1, 1, 1, 1, 1, 1, 1) else
    if b < 40 then Row(b - 30, 1, 1, 4, 1, 1, 1, 1, 5, 1, 1) else
    if b < 50 then Row(b - 40, 6, 7, 8, 8, 8, 9, 10, 8, 11, 11) else
    if b < 60 then Row(b - 50, 11, 11, 11, 11, 11, 11, 11, 11, 1, 1) else
    if b < 70 then Row(b - 60, 12, 13, 14, 1, 1, 15, 16, 17, 18, 19) else
    if b < 80 then Row(b - 70, 20, 21, 22, 23, 16, 16, 24, 16, 25, 26) else
    if b < 90 then Row(b - 80, 16, 27, 28, 29, 30, 31, 16, 16, 16, 16) else
    if b < 100 then Row(b - 90, 16, 8, 1, 8, 8, 16, 1, 32, 16, 33) else
    if b < 110 then Row(b - 100, 34, 35, 36, 37, 38, 39, 16, 16, 40, 16) else
    if b < 120 then Row(b - 110, 41, 42, 16, 43, 44, 45, 46, 47, 16, 16) else
    if b < 130 then Row(b - 120, 16, 16, 16, 1, 1, 1, 1, 1, 1, 1) else
    if b < 140 then Row(b - 130, 1, 1, 1, 1, 1, 1, 1, 1, 1, 1) else
    if b < 150 then Row(b - 140, 1, 1, 1, 1, 1, 1, 1, 1, 1, 1) else
    if b < 160 then Row(b - 150, 1, 1, 1, 1, 1, 1, 1, 1, 1, 1) else
    if b < 170 then Row(b - 160, 1, 1, 1, 1, 1, 1, 1, 1, 1, 1) else
    if b < 180 then Row(b - 170, 1, 1, 1, 1, 1, 1, 1, 1, 1, 1) else
    if b < 190 then Row(b - 180, 1, 1, 1, 1, 1, 1, 1, 1, 1, 1) else
    if b < 200 then Row(b - 190, 1, 1, 1, 1, 1, 1, 1, 1, 1, 1) else
    if b < 210 then Row(b - 200, 1, 1, 1, 1, 1, 1, 1, 1, 1, 1) else
    if b < 220 then Row(b - 210, 1, 1, 1, 1, 1, 1, 1, 1, 1, 1) else
    if b < 230 then Row(b - 220, 1, 1, 1, 1, 1, 1, 1, 1, 1, 1) else
    if b < 240 then Row(b - 230, 1, 1, 1, 1, 1, 1, 1, 1, 1, 1) else
    if b < 250 then Row(b - 240, 1, 1, 1, 1, 1, 1, 1, 1, 1, 1) else
    Row(b - 250, 1, 1, 1, 1, 1, 1, 0, 0, 0, 0)
  }

  /** The class that stands for class `c` in a template state. */
  function YyMeta(c: int): int {
    if c < 10 then Row(c, 0, 1, 1, 1, 1, 1, 2, 2, 1, 1) else
    if c < 20 then Row(c - 10, 1, 3, 1, 1, 1, 3, 3, 3, 3, 3) else
    if c < 30 then Row(c - 20, 3, 3, 3, 3, 3, 3, 3, 3, 3, 3) else
    if c < 40 then Row(c - 30, 3, 3, 3, 3, 3, 3, 3, 3, 3, 3) else
    Row(c - 40, 3, 3, 3, 3, 3, 3, 3, 3, 0, 0)
  }

  /** Where state `s` starts in YyNxt and YyChk. */
  function YyBase(s: int): int {
    if s < 10 then Row(s, 0, 0, 2, 9, 0, 159, 0, 0, 148, 161) else
    if s < 20 then Row(s - 10, 161, 55, 58, 144, 161, 53, 135, 134, 40, 0) else
    if s < 30 then Row(s - 20, 47, 43, 53, 51, 44, 51, 0, 52, 94, 135) else
    if s < 40 then Row(s - 30, 89, 161, 161, 0, 56, 53, 72, 71, 79, 78) else
    if s < 50 then Row(s - 40, 0, 0, 86, 75, 134, 133, 96, 0, 84, 90) else
    if s < 60 then Row(s - 50, 95, 83, 87, 89, 97, 73, 126, 134, 100, 0) else
    if s < 70 then Row(s - 60, 102, 115, 107, 0, 0, 137, 136, 100, 111, 0) else
    if s < 80 then Row(s - 70, 0, 0, 161, 161, 58, 117, 0, 161, 154, 157) else
    Row(s - 80, 1, 0, 0, 0, 0, 0, 0, 0, 0, 0)
  }

  /** The state to look in when `s` does not own an entry. */
  function YyDef(s: int): int {
    if s < 10 then Row(s, 0, 78, 78, 77, 3, 77, 79, 79, 77, 77) else
    if s < 20 then Row(s - 10, 77, 77, 77, 77, 77, 77, 77, 77, 80, 80) else
    if s < 30 then Row(s - 20, 80, 80, 80, 80, 80, 80, 79, 77, 77, 77) else
    if s < 40 then Row(s - 30, 77, 77, 77, 80, 80, 80, 80, 80, 80, 80) else
    if s < 50 then Row(s - 40, 80, 80, 80, 80, 77, 77, 77, 80, 80, 80) else
    if s < 60 then Row(s - 50, 80, 80, 80, 80, 80, 77, 77, 77, 80, 80) else
    if s < 70 then Row(s - 60, 80, 80, 80, 80, 80, 77, 77, 77, 80, 80) else
    if s < 80 then Row(s - 70, 80, 80, 77, 77, 77, 80, 80, 0, 77, 77) else
    Row(s - 80, 77, 0, 0, 0, 0, 0, 0, 0, 0, 0)
  }

  /** Next states. */
  function YyNxt(i: int): int {
    if i < 10 then Row(i, 0, 77, 77, 7, 33, 7, 8, 9, 8, 9) else
    if i < 20 then Row(i - 10, 10, 11, 12, 11, 10, 13, 14, 14, 14, 10) else
    if i < 30 then Row(i - 20, 15, 16, 14, 17, 18, 19, 20, 19, 21, 22) else
    if i < 40 then Row(i - 30, 19, 19, 23, 19, 19, 24, 19, 19, 19, 25) else
    if i < 50 then Row(i - 40, 19, 18, 20, 19, 21, 22, 19, 19, 23, 19) else
    if i < 60 then Row(i - 50, 19, 24, 19, 19, 19, 25, 19, 28, 28, 28) else
    if i < 70 then Row(i - 60, 28, 28, 28, 29, 30, 34, 35, 36, 38, 74) else
    if i < 80 then Row(i - 70, 37, 40, 41, 42, 47, 44, 48, 39, 45, 43) else
    if i < 90 then Row(i - 80, 65, 34, 35, 36, 55, 38, 37, 40, 41, 42) else
    if i < 100 then Row(i - 90, 47, 44, 48, 39, 45, 43, 28, 28, 28, 29) else
    if i < 110 then Row(i - 100, 30, 49, 50, 51, 52, 53, 54, 46, 58, 59) else
    if i < 120 then Row(i - 110, 60, 74, 61, 62, 63, 57, 64, 49, 50, 51) else
    if i < 130 then Row(i - 120, 52, 53, 54, 68, 58, 59, 69, 60, 61, 62) else
    if i < 140 then Row(i - 130, 63, 57, 64, 66, 70, 71, 75, 56, 76, 68) else
    if i < 150 then Row(i - 140, 73, 72, 69, 67, 56, 55, 46, 32, 31, 27) else
    if i < 160 then Row(i - 150, 70, 71, 75, 27, 76, 6, 6, 6, 26, 77) else
    if i < 170 then Row(i - 160, 26, 5, 77, 77, 77, 77, 77, 77, 77, 77) else
    if i < 180 then Row(i - 170, 77, 77, 77, 77, 77, 77, 77, 77, 77, 77) else
    if i < 190 then Row(i - 180, 77, 77, 77, 77, 77, 77, 77, 77, 77, 77) else
    if i < 200 then Row(i - 190, 77, 77, 77, 77, 77, 77, 77, 77, 77, 77) else
    Row(i - 200, 77, 77, 77, 77, 77, 77, 77, 77, 77, 0)
  }

  /** Which state owns entry `i` of YyNxt. */
  function YyChk(i: int): int {
    if i < 10 then Row(i, 0, 0, 0, 1, 80, 2, 1, 1, 2, 2) else
    if i < 20 then Row(i - 10, 3, 3, 3, 3, 3, 3, 3, 3, 3, 3) else
    if i < 30 then Row(i - 20, 3, 3, 3, 3, 3, 3, 3, 3, 3, 3) else
    if i < 40 then Row(i - 30, 3, 3, 3, 3, 3, 3, 3, 3, 3, 3) else
    if i < 50 then Row(i - 40, 3, 3, 3, 3, 3, 3, 3, 3, 3, 3) else
    if i < 60 then Row(i - 50, 3, 3, 3, 3, 3, 3, 3, 11, 11, 11) else
    if i < 70 then Row(i - 60, 12, 12, 12, 15, 15, 18, 20, 21, 22, 74) else
    if i < 80 then Row(i - 70, 21, 23, 24, 25, 34, 27, 35, 22, 27, 25) else
    if i < 90 then Row(i - 80, 55, 18, 20, 21, 55, 22, 21, 23, 24, 25) else
    if i < 100 then Row(i - 90, 34, 27, 35, 22, 27, 25, 28, 28, 28, 30) else
    if i < 110 then Row(i - 100, 30, 36, 37, 38, 39, 42, 43, 46, 48, 49) else
    if i < 120 then Row(i - 110, 50, 67, 51, 52, 53, 46, 54, 36, 37, 38) else
    if i < 130 then Row(i - 120, 39, 42, 43, 58, 48, 49, 60, 50, 51, 52) else
    if i < 140 then Row(i - 130, 53, 46, 54, 56, 61, 62, 68, 56, 75, 58) else
    if i < 150 then Row(i - 140, 66, 65, 60, 57, 45, 44, 29, 17, 16, 13) else
    if i < 160 then Row(i - 150, 61, 62, 68, 8, 75, 78, 78, 78, 79, 5) else
    if i < 170 then Row(i - 160, 79, 77, 77, 77, 77, 77, 77, 77, 77, 77) else
    if i < 180 then Row(i - 170, 77, 77, 77, 77, 77, 77, 77, 77, 77, 77) else
    if i < 190 then Row(i - 180, 77, 77, 77, 77, 77, 77, 77, 77, 77, 77) else
    if i < 200 then Row(i - 190, 77, 77, 77, 77, 77, 77, 77, 77, 77, 77) else
    Row(i - 200, 77, 77, 77, 77, 77, 77, 77, 77, 77, 0)
  }
}
