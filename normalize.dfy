/** Login-name normalisation: `normalizar_texto` (the slug of a text) and
    `preencher_email` (a username from a full name), gerador_sds.py:34-48.

    The Unicode services the source leans on (str.lower, NFD decomposition,
    the general category Mn, str.isalnum, str.isspace) are not re-implemented:
    they are the fields of a `CharDb`, and everything below is proved for
    every such table. */
module Normalize {
  import opened Common

  /** One-character views of the Unicode database. */
  datatype CharDb = CharDb(
    lower: char -> string,   // str.lower on one character
    nfd: char -> string,     // canonical decomposition of one character
    isMark: char -> bool,    // unicodedata.category(c) == 'Mn'
    isAlnum: char -> bool,   // str.isalnum on one character
    isSpace: char -> bool)   // str.isspace, also the separators of str.split()

  /** The punctuation a username is built with is not alphanumeric
      (true of the real Unicode tables). */
  predicate Punctuated(db: CharDb) {
    !db.isAlnum('-') && !db.isAlnum('.') && !db.isAlnum('@')
  }

  // ---------------------------------------------------------------------
  // Character-level building blocks
  // ---------------------------------------------------------------------

  /** Applies a one-to-many character map to every character, in order. */
  function ConcatMap(s: string, f: char -> string): string
    decreases |s|
  {
    if s == [] then [] else f(s[0]) + ConcatMap(s[1..], f)
  }

  /** `''.join(c for c in s if p(c))`. */
  function Keep(s: string, p: char -> bool): (r: string)
    ensures |r| <= |s|
    ensures forall c :: c in r <==> c in s && p(c)
    decreases |s|
  {
    if s == [] then []
    else
      var rest := Keep(s[1..], p);
      assert forall c :: c in s <==> c == s[0] || c in s[1..];
      if p(s[0]) then [s[0]] + rest else rest
  }

  /** `.replace('ª', 'a').replace('º', 'o')`, one character at a time. */
  function Ordinal(c: char): char {
    if c == 'ª' then 'a' else if c == 'º' then 'o' else c
  }

  // ---------------------------------------------------------------------
  // str.split() and str.strip() with no arguments
  // ---------------------------------------------------------------------

  /** Length of the longest prefix of `s` without a separator. */
  function WordLength(s: string, isSpace: char -> bool): (n: nat)
    requires s != [] && !isSpace(s[0])
    ensures 1 <= n <= |s|
    ensures forall i :: 0 <= i < n ==> !isSpace(s[i])
    ensures n < |s| ==> isSpace(s[n])
    decreases |s|
  {
    if |s| == 1 || isSpace(s[1]) then 1 else 1 + WordLength(s[1..], isSpace)
  }

  /** `s.split()`: the maximal runs of non-separator characters, in order. */
  function Words(s: string, isSpace: char -> bool): seq<string>
    decreases |s|
  {
    if s == [] then []
    else if isSpace(s[0]) then Words(s[1..], isSpace)
    else
      var n := WordLength(s, isSpace);
      [s[..n]] + Words(s[n..], isSpace)
  }

  function TrimStart(s: string, isSpace: char -> bool): string
    decreases |s|
  {
    if s != [] && isSpace(s[0]) then TrimStart(s[1..], isSpace) else s
  }

  function TrimEnd(s: string, isSpace: char -> bool): string
    decreases |s|
  {
    if s != [] && isSpace(s[|s| - 1]) then TrimEnd(s[..|s| - 1], isSpace) else s
  }

  /** `s.strip()`. */
  function Strip(s: string, isSpace: char -> bool): string {
    TrimEnd(TrimStart(s, isSpace), isSpace)
  }

  /** `sep.join(ws)`. */
  function JoinWith(ws: seq<string>, sep: char): string
    decreases |ws|
  {
    if ws == [] then []
    else if |ws| == 1 then ws[0]
    else ws[0] + [sep] + JoinWith(ws[1..], sep)
  }

  /** Every word of `s.split()` is non-empty, holds no separator, and is
      made of characters of `s`. */
  lemma {:induction false} WordsAreWords(s: string, isSpace: char -> bool)
    ensures forall w :: w in Words(s, isSpace) ==>
      w != [] && forall c :: c in w ==> c in s && !isSpace(c)
    decreases |s|
  {
    if s == [] {
    } else if isSpace(s[0]) {
      WordsAreWords(s[1..], isSpace);
      assert forall c :: c in s[1..] ==> c in s;
    } else {
      var n := WordLength(s, isSpace);
      WordsAreWords(s[n..], isSpace);
      assert forall c :: c in s[n..] ==> c in s;
      assert forall c :: c in s[..n] ==> c in s && !isSpace(c);
    }
  }

  /** `s.split()` is empty exactly when `s` is made of separators only. */
  lemma {:induction false} WordsEmpty(s: string, isSpace: char -> bool)
    ensures Words(s, isSpace) == [] <==> forall c :: c in s ==> isSpace(c)
    decreases |s|
  {
    if s != [] && isSpace(s[0]) {
      WordsEmpty(s[1..], isSpace);
      assert forall c :: c in s <==> c == s[0] || c in s[1..];
    }
  }

  /** Trailing separators do not change `split()`. */
  lemma {:induction false} WordsAppendSpaces(s: string, t: string, isSpace: char -> bool)
    requires forall c :: c in t ==> isSpace(c)
    ensures Words(s + t, isSpace) == Words(s, isSpace)
    decreases |s|
  {
    if s == [] {
      assert s + t == t;
      WordsEmpty(t, isSpace);
    } else if isSpace(s[0]) {
      assert (s + t)[1..] == s[1..] + t;
      WordsAppendSpaces(s[1..], t, isSpace);
    } else {
      var n := WordLength(s, isSpace);
      var m := WordLength(s + t, isSpace);
      assert forall i :: 0 <= i < |s| ==> (s + t)[i] == s[i];
      assert n < |s + t| ==> isSpace((s + t)[n]) by {
        if n == |s| && n < |s + t| {
          assert (s + t)[n] == t[0] && t[0] in t;
        }
      }
      assert m == n;
      assert (s + t)[..n] == s[..n];
      assert (s + t)[n..] == s[n..] + t;
      WordsAppendSpaces(s[n..], t, isSpace);
    }
  }

  /** `s.strip().split() == s.split()`: the strip in `preencher_email` is
      subsumed by the split that follows it. */
  lemma {:induction false} StripThenSplit(s: string, isSpace: char -> bool)
    ensures Words(Strip(s, isSpace), isSpace) == Words(s, isSpace)
  {
    TrimEndWords(TrimStart(s, isSpace), isSpace);
    TrimStartWords(s, isSpace);
  }

  lemma {:induction false} TrimStartWords(s: string, isSpace: char -> bool)
    ensures Words(TrimStart(s, isSpace), isSpace) == Words(s, isSpace)
    decreases |s|
  {
    if s != [] && isSpace(s[0]) {
      TrimStartWords(s[1..], isSpace);
    }
  }

  lemma {:induction false} TrimEndWords(s: string, isSpace: char -> bool)
    ensures Words(TrimEnd(s, isSpace), isSpace) == Words(s, isSpace)
    decreases |s|
  {
    if s != [] && isSpace(s[|s| - 1]) {
      var p := s[..|s| - 1];
      TrimEndWords(p, isSpace);
      assert s == p + [s[|s| - 1]];
      WordsAppendSpaces(p, [s[|s| - 1]], isSpace);
    }
  }

  // ---------------------------------------------------------------------
  // normalizar_texto
  // ---------------------------------------------------------------------

  /** A hyphen-joined text: no leading, trailing or doubled `sep`. */
  predicate WellJoined(r: string, sep: char) {
    && (r != [] ==> r[0] != sep && r[|r| - 1] != sep)
    && forall i :: 0 <= i < |r| - 1 && r[i] == sep ==> r[i + 1] != sep
  }

  /** Every character of `sep.join(ws)` is `sep` or a character of a word. */
  lemma {:induction false} JoinWithChars(ws: seq<string>, sep: char)
    ensures forall c :: c in JoinWith(ws, sep) ==> c == sep || exists w :: w in ws && c in w
    decreases |ws|
  {
    if |ws| > 1 {
      JoinWithChars(ws[1..], sep);
      forall c | c in JoinWith(ws, sep)
        ensures c == sep || exists w :: w in ws && c in w
      {
        if c in ws[0] {
          assert ws[0] in ws;
        } else if c != sep {
          var v :| v in ws[1..] && c in v;
          assert v in ws;
        }
      }
    } else if |ws| == 1 {
      assert ws[0] in ws;
    }
  }

  /** Joining non-empty, separator-free words gives a non-empty (when there
      is a word) well-joined text. */
  lemma {:induction false} JoinWithShape(ws: seq<string>, sep: char)
    requires forall w :: w in ws ==> w != [] && sep !in w
    ensures WellJoined(JoinWith(ws, sep), sep)
    ensures ws != [] ==> JoinWith(ws, sep) != []
    decreases |ws|
  {
    if |ws| == 1 {
      var w := ws[0];
      assert w in ws;
      assert forall i :: 0 <= i < |w| ==> w[i] in w;
    } else if |ws| > 1 {
      var w := ws[0];
      assert w in ws;
      var rest := JoinWith(ws[1..], sep);
      assert forall v :: v in ws[1..] ==> v in ws;
      JoinWithShape(ws[1..], sep);
      var r := w + [sep] + rest;
      assert r == JoinWith(ws, sep);
      assert forall i :: 0 <= i < |w| ==> r[i] == w[i] && w[i] in w;
      assert r[|w|] == sep;
      assert forall i :: |w| < i < |r| ==> r[i] == rest[i - |w| - 1];
      forall i | 0 <= i < |r| - 1 && r[i] == sep
        ensures r[i + 1] != sep
      {
        if i == |w| {
          assert r[i + 1] == rest[0];
        } else if i > |w| {
          assert r[i + 1] == rest[i - |w|];
        }
      }
    }
  }

  /** `normalizar_texto(texto)`; `None` stands for anything that is not a
      `str` (NaN, None, a number). */
  function Slug(db: CharDb, texto: Option<string>): string {
    match texto
    case None => ""
    case Some(t) =>
      var lowered := ConcatMap(t, db.lower);
      var plain := ConcatMap(lowered, c => [Ordinal(c)]);
      var semAcento := Keep(ConcatMap(plain, db.nfd), c => !db.isMark(c));
      var alfanumerico := Keep(semAcento, c => db.isAlnum(c) || db.isSpace(c));
      JoinWith(Words(alfanumerico, db.isSpace), '-')
  }

  /** A slug is empty for a non-string, is made of letters, digits and `-`,
      and, as `-` is not alphanumeric, never starts or ends with `-` nor
      holds `--`. */
  lemma SlugShape(db: CharDb, texto: Option<string>)
    ensures texto.None? ==> Slug(db, texto) == ""
    ensures forall c :: c in Slug(db, texto) ==> c == '-' || db.isAlnum(c)
    ensures !db.isAlnum('-') ==> WellJoined(Slug(db, texto), '-')
  {
    if texto.Some? {
      var t := texto.value;
      var plain := ConcatMap(ConcatMap(t, db.lower), c => [Ordinal(c)]);
      var semAcento := Keep(ConcatMap(plain, db.nfd), c => !db.isMark(c));
      var alfanumerico := Keep(semAcento, c => db.isAlnum(c) || db.isSpace(c));
      var ws := Words(alfanumerico, db.isSpace);
      WordsAreWords(alfanumerico, db.isSpace);
      assert forall w, c :: w in ws && c in w ==> db.isAlnum(c);
      JoinWithChars(ws, '-');
      if !db.isAlnum('-') {
        JoinWithShape(ws, '-');
      }
    }
  }

  // ---------------------------------------------------------------------
  // preencher_email
  // ---------------------------------------------------------------------

  /** `preencher_email(nome_completo, dominio)`. */
  function Username(db: CharDb, nome: Option<string>, dominio: string): Option<string> {
    match nome
    case None => None
    case Some(n) =>
      var partes := Words(Strip(n, db.isSpace), db.isSpace);
      if partes == [] then None
      else
        var primeiro := Slug(db, Some(partes[0]));
        var ultimo := if |partes| > 1 then Slug(db, Some(partes[|partes| - 1])) else primeiro;
        Some(primeiro + "." + ultimo + "@" + dominio)
  }

  /** The parts a username is read back into. */
  datatype Login = Login(first: string, last: string, domain: string)

  /** Splits at the first occurrence of `c`. */
  function SplitAt(s: string, c: char): (r: Option<(string, string)>)
    ensures r.None? <==> c !in s
    ensures r.Some? ==> c !in r.value.0 && s == r.value.0 + [c] + r.value.1
    decreases |s|
  {
    if s == [] then None
    else if s[0] == c then Some(([], s[1..]))
    else match SplitAt(s[1..], c)
      case None => None
      case Some(p) => Some(([s[0]] + p.0, p.1))
  }

  /** Reads `first.last@domain` back, splitting at the first `@` and then
      at the first `.`. */
  function ParseUsername(u: string): Option<Login> {
    match SplitAt(u, '@')
    case None => None
    case Some(p) =>
      match SplitAt(p.0, '.')
      case None => None
      case Some(q) => Some(Login(q.0, q.1, p.1))
  }

  lemma {:induction false} SplitAtFirst(a: string, b: string, c: char)
    requires c !in a
    ensures SplitAt(a + [c] + b, c) == Some((a, b))
    decreases |a|
  {
    if a == [] {
      assert a + [c] + b == [c] + b;
    } else {
      assert (a + [c] + b)[1..] == a[1..] + [c] + b;
      SplitAtFirst(a[1..], b, c);
      assert [a[0]] + a[1..] == a;
    }
  }

  /** `preencher_email` gives no username exactly for a non-string or a
      name made of whitespace only; otherwise its username reads back as
      the slug of the first word, a `.`, the slug of the last word (the
      same word for a one-word name), `@` and the domain. */
  lemma UsernameParts(db: CharDb, nome: Option<string>, dominio: string)
    requires Punctuated(db)
    ensures Username(db, nome, dominio).None? <==>
      nome.None? || forall c :: c in nome.value ==> db.isSpace(c)
    ensures nome.Some? && Words(nome.value, db.isSpace) != [] ==>
      var ws := Words(nome.value, db.isSpace);
      && Username(db, nome, dominio).Some?
      && ParseUsername(Username(db, nome, dominio).value)
         == Some(Login(Slug(db, Some(ws[0])), Slug(db, Some(ws[|ws| - 1])), dominio))
  {
    if nome.Some? {
      var n := nome.value;
      StripThenSplit(n, db.isSpace);
      WordsEmpty(n, db.isSpace);
      var ws := Words(n, db.isSpace);
      if ws != [] {
        var first := Slug(db, Some(ws[0]));
        var last := Slug(db, Some(ws[|ws| - 1]));
        SlugShape(db, Some(ws[0]));
        SlugShape(db, Some(ws[|ws| - 1]));
        assert '.' !in first && '@' !in first && '@' !in last;
        var u := first + "." + last + "@" + dominio;
        assert Username(db, nome, dominio) == Some(u);
        assert u == (first + "." + last) + ['@'] + dominio;
        SplitAtFirst(first + "." + last, dominio, '@');
        assert first + "." + last == first + ['.'] + last;
        SplitAtFirst(first, last, '.');
      }
    }
  }
}
