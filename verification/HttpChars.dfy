/**
 * Character classes of the HTTP parser (strict mode). A byte is written as the character with its code; the
 * classes below are total on characters, so every statement about them holds in particular of all 256 bytes.
 */
module HttpChars {
  import opened Basics

  const CR: char := '\r'
  const LF: char := '\n'
  const CRLF: string := "\r\n"

  predicate IsNum(c: char) {
    '0' <= c <= '9'
  }

  function DigitValue(c: char): (d: nat)
    requires IsNum(c)
    ensures d < 10
  {
    c as int - '0' as int
  }

  /** The LOWER macro: sets bit 5. */
  function Lower(c: char): (l: char)
    ensures l != NUL && l != CR && l != LF
  {
    if c as int / 32 % 2 == 0 then (c as int + 32) as char else c
  }

  predicate IsAlpha(c: char) {
    'a' <= c <= 'z' || 'A' <= c <= 'Z'
  }

  predicate IsAlphaNum(c: char) {
    IsAlpha(c) || IsNum(c)
  }

  predicate IsHex(c: char) {
    IsNum(c) || 'a' <= c <= 'f' || 'A' <= c <= 'F'
  }

  predicate IsMark(c: char) {
    c == '-' || c == '_' || c == '.' || c == '!' || c == '~' || c == '*' || c == '\'' || c == '(' || c == ')'
  }

  predicate IsUserInfoChar(c: char) {
    IsAlphaNum(c) || IsMark(c) || c == '%' || c == ';' || c == ':' || c == '&' || c == '=' || c == '+' || c == '$' ||
      c == ','
  }

  predicate IsHostChar(c: char) {
    IsAlphaNum(c) || c == '.' || c == '-'
  }

  /** The bit table normal_url_char: visible ASCII except '#' and '?'. */
  predicate IsUrlChar(c: char) {
    '!' <= c <= '~' && c != '#' && c != '?'
  }

  predicate IsHeaderChar(c: char) {
    c == CR || c == LF || c == '\t' || (31 < c as int && c as int != 127)
  }

  predicate IsTokenMark(c: char) {
    c == '!' || c == '#' || c == '$' || c == '%' || c == '&' || c == '\'' || c == '*' || c == '+' || c == '-' ||
    c == '.' || c == '^' || c == '_' || c == '`' || c == '|' || c == '~'
  }

  /** The tokens table: the lower-cased token character, or NUL when c is no token character. */
  function Token(c: char): (t: char)
    ensures t != NUL <==> IsAlphaNum(c) || IsTokenMark(c)
    ensures t != NUL ==> c != ':' && c != CR && c != LF
  {
    if 'A' <= c <= 'Z' then (c as int + 32) as char
    else if 'a' <= c <= 'z' || IsNum(c) || IsTokenMark(c) then c
    else NUL
  }

  predicate IsToken(c: char) {
    Token(c) != NUL
  }

  /** The unhex table. */
  function Unhex(c: char): (v: int)
    ensures v == -1 <==> !IsHex(c)
    ensures -1 <= v < 16
  {
    if IsNum(c) then c as int - '0' as int
    else if 'a' <= c <= 'f' then c as int - 'a' as int + 10
    else if 'A' <= c <= 'F' then c as int - 'A' as int + 10
    else -1
  }

  // ---------------------------------------------------------------- the classes, written out

  const DIGITS: string := "0123456789"
  const UPPER_LETTERS: string := "ABCDEFGHIJKLMNOPQRSTUVWXYZ"
  const LOWER_LETTERS: string := "abcdefghijklmnopqrstuvwxyz"
  const LOWER_HEX: string := "0123456789abcdef"
  const UPPER_HEX: string := "0123456789ABCDEF"

  /** The marks of tchar, section 3.2.6 of RFC 7230. */
  const TOKEN_MARKS: string := "!#$%&'*+-.^_`|~"

  lemma DigitTable(c: char, d: nat)
    requires d < 10
    ensures IsNum(c) && DigitValue(c) == d <==> c == DIGITS[d]
  {
  }

  lemma HexTable(c: char, v: nat)
    requires v < 16
    ensures Unhex(c) == v <==> c == LOWER_HEX[v] || c == UPPER_HEX[v]
  {
  }

  /** Only the two cases of a letter have that letter for their lower case, and only a hyphen or CR a hyphen. */
  lemma LowerTable(c: char, i: nat)
    requires i < 26
    ensures Lower(c) == LOWER_LETTERS[i] <==> c == LOWER_LETTERS[i] || c == UPPER_LETTERS[i]
    ensures Lower(c) == '-' <==> c == '-' || c == CR
  {
  }

  predicate IsLetter(c: char) {
    c in LOWER_LETTERS || c in UPPER_LETTERS
  }

  lemma LowerLetters(c: char)
    ensures 'a' <= c <= 'z' <==> c in LOWER_LETTERS
  {
    if 'a' <= c <= 'z' {
      assert c == LOWER_LETTERS[c as int - 'a' as int];
    }
  }

  lemma UpperLetters(c: char)
    ensures 'A' <= c <= 'Z' <==> c in UPPER_LETTERS
  {
    if 'A' <= c <= 'Z' {
      assert c == UPPER_LETTERS[c as int - 'A' as int];
    }
  }

  lemma DecimalDigits(c: char)
    ensures IsNum(c) <==> c in DIGITS
  {
    if IsNum(c) {
      assert c == DIGITS[c as int - '0' as int];
    }
  }

  lemma Letters(c: char)
    ensures IsAlpha(c) <==> IsLetter(c)
    ensures IsNum(c) <==> c in DIGITS
  {
    LowerLetters(c);
    UpperLetters(c);
    DecimalDigits(c);
  }

  /** The tokens table: letters in lower case, digits and marks as they are, nothing else. */
  lemma TokenLetters(i: nat)
    requires i < 26
    ensures Token(UPPER_LETTERS[i]) == Token(LOWER_LETTERS[i]) == LOWER_LETTERS[i]
  {
  }

  lemma TokenTable(c: char)
    ensures c in DIGITS || c in TOKEN_MARKS ==> Token(c) == c
    ensures IsToken(c) <==> IsLetter(c) || c in DIGITS || c in TOKEN_MARKS
  {
    Letters(c);
    MarkTable(c);
  }

  lemma MarkTable(c: char)
    ensures IsTokenMark(c) <==> c in TOKEN_MARKS
  {
    assert TOKEN_MARKS[0] == '!' && TOKEN_MARKS[1] == '#' && TOKEN_MARKS[2] == '$' && TOKEN_MARKS[3] == '%';
    assert TOKEN_MARKS[4] == '&' && TOKEN_MARKS[5] == '\'' && TOKEN_MARKS[6] == '*' && TOKEN_MARKS[7] == '+';
    assert TOKEN_MARKS[8] == '-' && TOKEN_MARKS[9] == '.' && TOKEN_MARKS[10] == '^' && TOKEN_MARKS[11] == '_';
    assert TOKEN_MARKS[12] == '`' && TOKEN_MARKS[13] == '|' && TOKEN_MARKS[14] == '~';
  }

  /** The characters of the parts of a URL: section 2 of RFC 2396 has the marks. */
  lemma UrlTable(c: char)
    ensures IsHostChar(c) <==> IsLetter(c) || c in DIGITS || c in ".-"
    ensures IsUserInfoChar(c) <==> IsLetter(c) || c in DIGITS || c in "-_.!~*'()" || c in "%;:&=+$,"
    ensures IsUrlChar(c) <==> 32 < c as int < 127 && c !in "#?"
    ensures IsHex(c) <==> c in LOWER_HEX || c in UPPER_HEX
  {
    Letters(c);
    UserInfoMarks(c);
    if IsNum(c) {
      assert c == LOWER_HEX[c as int - '0' as int];
    } else if 'a' <= c <= 'f' {
      assert c == LOWER_HEX[c as int - 'a' as int + 10];
    } else if 'A' <= c <= 'F' {
      assert c == UPPER_HEX[c as int - 'A' as int + 10];
    }
    assert ".-"[0] == '.' && ".-"[1] == '-' && "#?"[0] == '#' && "#?"[1] == '?';
  }

  lemma UserInfoMarks(c: char)
    ensures IsMark(c) <==> c in "-_.!~*'()"
    ensures c == '%' || c == ';' || c == ':' || c == '&' || c == '=' || c == '+' || c == '$' || c == ',' <==>
            c in "%;:&=+$,"
  {
    var m, o := "-_.!~*'()", "%;:&=+$,";
    assert m[0] == '-' && m[1] == '_' && m[2] == '.' && m[3] == '!' && m[4] == '~' && m[5] == '*' && m[6] == '\'';
    assert m[7] == '(' && m[8] == ')';
    assert o[0] == '%' && o[1] == ';' && o[2] == ':' && o[3] == '&' && o[4] == '=' && o[5] == '+' && o[6] == '$';
    assert o[7] == ',';
  }

  /** What a header value may hold: section 3.2 of RFC 7230, and line ends. */
  lemma HeaderTable(c: char)
    ensures IsHeaderChar(c) <==> c in "\t\r\n" || 32 <= c as int <= 126 || 128 <= c as int
  {
    assert "\t\r\n"[0] == '\t' && "\t\r\n"[1] == '\r' && "\t\r\n"[2] == '\n';
  }
}
