/** Parsing of test file names. */
module FileName {
  import opened Outcomes
  import opened Objects

  datatype FileType = TypeUnknown | TypeApply | TypeAssert | TypeError

  datatype Info = Info(fileType: FileType, baseName: string, fullName: string,
                       hasIndex: bool, index: nat, stepName: string, isTemplate: bool)

  /** The capturing groups of the file name expression: number and dash, first component, the rest, extension. */
  datatype Groups = Groups(number: string, first: string, rest: string, ext: string)

  // ----- the grammar -----

  predicate AllDigits(s: string) { forall i :: 0 <= i < |s| ==> '0' <= s[i] <= '9' }

  predicate Digits(s: string) { s != "" && AllDigits(s) }

  predicate NumberGroup(s: string) { s == "" || (s[|s| - 1] == '-' && Digits(s[..|s| - 1])) }

  predicate FirstGroup(s: string) { s != "" && '-' !in s && '.' !in s }

  predicate RestGroup(s: string) { s == "" || (|s| >= 2 && s[0] == '-' && '.' !in s) }

  predicate ExtGroup(s: string) { s in {"", ".yaml", ".gotmpl.yaml"} }

  /** One way of reading `name` by ^(\d+-)?([^-.]+)(-[^.]+)?((?:\.gotmpl)?\.yaml)?$ */
  predicate Decomposes(name: string, g: Groups)
  {
    && name == g.number + g.first + g.rest + g.ext
    && NumberGroup(g.number) && FirstGroup(g.first) && RestGroup(g.rest) && ExtGroup(g.ext)
  }

  // ----- matching by scanning -----

  function IndexOf(s: string, c: char): (i: nat)
    ensures i <= |s| && (i < |s| ==> s[i] == c) && c !in s[..i]
  {
    if s == "" then 0
    else if s[0] == c then 0
    else
      var i := 1 + IndexOf(s[1..], c);
      assert s[..i] == [s[0]] + s[1..][..i - 1];
      i
  }

  /** First component and the rest of a name that has no dot. */
  function SplitBody(body: string): Option<(string, string)>
  {
    var p := IndexOf(body, '-');
    if p > 0 && (p == |body| || p + 1 < |body|) then Some((body[..p], body[p..])) else None
  }

  /** Number, first component and rest of a name that has no dot: a leading number is preferred when the remainder
      matches. */
  function MatchBody(body: string): Option<(string, string, string)>
  {
    var p := IndexOf(body, '-');
    var indexed := if p < |body| && Digits(body[..p]) then SplitBody(body[p + 1..]) else None;
    var plain := SplitBody(body);
    if indexed.Some? then Some((body[..p + 1], indexed.value.0, indexed.value.1))
    else if plain.Some? then Some(("", plain.value.0, plain.value.1))
    else None
  }

  /** Submatches of the expression. */
  function Match(name: string): Option<Groups>
  {
    var d := IndexOf(name, '.');
    var parts := MatchBody(name[..d]);
    if ExtGroup(name[d..]) && parts.Some?
    then Some(Groups(parts.value.0, parts.value.1, parts.value.2, name[d..]))
    else None
  }

  // ----- Parse -----

  function DecimalValue(s: string): nat
    requires AllDigits(s)
  {
    if s == "" then 0 else DecimalValue(s[..|s| - 1]) * 10 + (s[|s| - 1] - '0') as nat
  }

  const MAX_INDEX := 0x7fff_ffff

  /** The last element of a slash-separated path. */
  function Base(path: string): string
  {
    if path == "" then "."
    else
      var trimmed := TrimSlashes(path);
      if trimmed == "" then "/" else LastElement(trimmed)
  }

  function TrimSlashes(s: string): string
  {
    if s != "" && s[|s| - 1] == '/' then TrimSlashes(s[..|s| - 1]) else s
  }

  function LastElement(s: string): string
  {
    var p := IndexOf(s, '/');
    if p == |s| then s else LastElement(s[p + 1..])
  }

  function Unknown(fullName: string): Info
  {
    Info(TypeUnknown, Base(fullName), fullName, false, 0, "", false)
  }

  function Parse(fullName: string): Info
  {
    var name := Base(fullName);
    match Match(name)
    case None => Unknown(fullName)
    case Some(g) =>
      MatchSound(name);
      var digits := if g.number == "" then "" else g.number[..|g.number| - 1];
      if g.number != "" && DecimalValue(digits) > MAX_INDEX then Unknown(fullName)
      else
        var kind := TypeOfComponent(g.first);
        Info(kind, name, fullName, g.number != "", DecimalValue(digits),
             if kind.TypeApply? then g.first + g.rest else "", g.ext == ".gotmpl.yaml")
  }

  function TypeOfComponent(first: string): FileType
  {
    var lower := ToLower(first);
    if lower == "assert" then TypeAssert else if lower == "errors" then TypeError else TypeApply
  }

  // ----- the scanner implements the expression, leftmost-first -----

  lemma SplitBodySound(body: string)
    requires '.' !in body && SplitBody(body).Some?
    ensures var parts := SplitBody(body).value;
      FirstGroup(parts.0) && RestGroup(parts.1) && body == parts.0 + parts.1
  {
  }

  lemma MatchBodySound(body: string)
    requires '.' !in body && MatchBody(body).Some?
    ensures var parts := MatchBody(body).value;
      NumberGroup(parts.0) && FirstGroup(parts.1) && RestGroup(parts.2) && body == parts.0 + parts.1 + parts.2
  {
    var p := IndexOf(body, '-');
    if MatchBody(body).value.0 != "" {
      var tail := body[p + 1..];
      SplitBodySound(tail);
      assert body == body[..p + 1] + tail;
      assert body[..p + 1][..p] == body[..p];
    } else {
      SplitBodySound(body);
    }
  }

  lemma MatchSound(name: string)
    ensures Match(name).Some? ==> Decomposes(name, Match(name).value)
  {
    var d := IndexOf(name, '.');
    if Match(name).Some? {
      MatchBodySound(name[..d]);
      assert name == name[..d] + name[d..];
    }
  }

  lemma {:induction false} IndexOfFirst(s: string, t: string, c: char)
    requires c !in s && (t != "" ==> t[0] == c)
    ensures IndexOf(s + t, c) == |s|
  {
    if s == "" {
      assert s + t == t;
    } else {
      assert (s + t)[1..] == s[1..] + t;
      IndexOfFirst(s[1..], t, c);
    }
  }

  lemma SplitBodyComplete(first: string, rest: string)
    requires FirstGroup(first) && RestGroup(rest)
    ensures SplitBody(first + rest) == Some((first, rest))
  {
    IndexOfFirst(first, rest, '-');
    assert (first + rest)[..|first|] == first && (first + rest)[|first|..] == rest;
  }

  lemma MatchBodyIndexed(digits: string, first: string, rest: string)
    requires Digits(digits) && FirstGroup(first) && RestGroup(rest)
    ensures MatchBody(digits + "-" + first + rest) == Some((digits + "-", first, rest))
  {
    var tail := first + rest;
    var body := digits + "-" + first + rest;
    assert body == digits + ("-" + tail);
    IndexOfFirst(digits, "-" + tail, '-');
    assert body[..|digits|] == digits && body[..|digits| + 1] == digits + "-" && body[|digits| + 1..] == tail;
    SplitBodyComplete(first, rest);
  }

  /** Any reading by the expression is the one chosen, except that a reading with a number is preferred. */
  lemma MatchIsLeftmostFirst(name: string, g: Groups)
    requires Decomposes(name, g)
    ensures Match(name) == Some(g) || (g.number == "" && Match(name).Some? && Match(name).value.number != "")
  {
    var body := g.number + g.first + g.rest;
    NumberHasNoDot(g.number);
    IndexOfFirst(body, g.ext, '.');
    assert name == body + g.ext && name[..|body|] == body && name[|body|..] == g.ext;
    if g.number != "" {
      var digits := g.number[..|g.number| - 1];
      assert g.number == digits + "-";
      MatchBodyIndexed(digits, g.first, g.rest);
    } else {
      assert body == g.first + g.rest;
      SplitBodyComplete(g.first, g.rest);
    }
  }

  lemma NumberHasNoDot(number: string)
    requires NumberGroup(number)
    ensures '.' !in number
  {
  }

  /** A directory part is empty or ends with a slash. */
  predicate IsDir(dir: string) { dir == "" || dir[|dir| - 1] == '/' }

  predicate IsName(name: string) { name != "" && '/' !in name }

  lemma {:induction false} LastElementOf(dir: string, name: string)
    requires IsDir(dir) && IsName(name)
    ensures LastElement(dir + name) == name
    decreases |dir|
  {
    if dir == "" {
      assert dir + name == name;
    } else {
      var path := dir + name;
      var p := IndexOf(path, '/');
      assert path[|dir| - 1] == '/' && forall i :: 0 <= i < p ==> path[i] in path[..p];
      var rest := dir[p + 1..];
      assert path[p + 1..] == rest + name;
      LastElementOf(rest, name);
    }
  }

  lemma BaseOfPath(dir: string, name: string)
    requires IsDir(dir) && IsName(name)
    ensures Base(dir + name) == name
  {
    assert (dir + name)[|dir + name| - 1] == name[|name| - 1];
    LastElementOf(dir, name);
  }

  /** Slashes at the end of a path do not matter. */
  lemma {:induction false} TrailingSlashes(path: string, slashes: string)
    requires path != "" && path[|path| - 1] != '/' && forall i :: 0 <= i < |slashes| ==> slashes[i] == '/'
    ensures Base(path + slashes) == Base(path)
    decreases |slashes|
  {
    if slashes == "" {
      assert path + slashes == path;
    } else {
      var fewer := slashes[..|slashes| - 1];
      assert (path + slashes)[..|path + slashes| - 1] == path + fewer;
      TrailingSlashes(path, fewer);
    }
  }

  /** The word, with its letters in any case; `word` is in lower case. */
  predicate Spells(s: string, word: string)
  {
    |s| == |word| && forall i :: 0 <= i < |s| ==> s[i] == word[i] || s[i] as int == word[i] as int - 32
  }

  /** What a file is, and what it calls its step, by its first component and the rest. */
  ghost predicate NamedBy(info: Info, first: string, rest: string, ext: string)
  {
    && (Spells(first, "assert") ==> info.fileType == TypeAssert && info.stepName == "")
    && (Spells(first, "errors") ==> info.fileType == TypeError && info.stepName == "")
    && (!Spells(first, "assert") && !Spells(first, "errors") ==>
         info.fileType == TypeApply && info.stepName == first + rest)
    && (info.isTemplate <==> ext == ".gotmpl.yaml")
  }

  lemma SpellsExactly(s: string, word: string)
    requires forall i :: 0 <= i < |word| ==> 'a' <= word[i] <= 'z'
    ensures ToLower(s) == word <==> Spells(s, word)
  {
    if ToLower(s) == word {
      forall i | 0 <= i < |s| ensures s[i] == word[i] || s[i] as int == word[i] as int - 32 {
        assert ToLower(s)[i] == word[i];
      }
    }
    if Spells(s, word) {
      forall i | 0 <= i < |s| ensures ToLower(s)[i] == word[i] { }
    }
  }

  lemma TypeIsNamed(info: Info, first: string, rest: string, ext: string)
    requires info.fileType == TypeOfComponent(first)
    requires info.stepName == if info.fileType.TypeApply? then first + rest else ""
    requires info.isTemplate <==> ext == ".gotmpl.yaml"
    ensures NamedBy(info, first, rest, ext)
  {
    SpellsExactly(first, "assert");
    SpellsExactly(first, "errors");
  }

  /** Parse undoes printing, in any directory: any number below 2^31, with any leading zeros, and any components and
      extension. */
  lemma ParseUndoesPrinting(dir: string, digits: string, first: string, rest: string, ext: string)
    requires Digits(digits) && DecimalValue(digits) < 0x8000_0000 && IsDir(dir)
    requires FirstGroup(first) && RestGroup(rest) && ExtGroup(ext) && '/' !in first && '/' !in rest
    ensures var name := digits + "-" + first + rest + ext;
      var info := Parse(dir + name);
      && info.baseName == name && info.fullName == dir + name
      && info.hasIndex && info.index == DecimalValue(digits) && NamedBy(info, first, rest, ext)
  {
    var name := digits + "-" + first + rest + ext;
    var g := Groups(digits + "-", first, rest, ext);
    NumberedMatches(dir, digits, g, name);
    TypeIsNamed(Parse(dir + name), first, rest, ext);
  }

  lemma NumberedMatches(dir: string, digits: string, g: Groups, name: string)
    requires Digits(digits) && IsDir(dir) && g.number == digits + "-" && '/' !in g.first && '/' !in g.rest
    requires name == digits + "-" + g.first + g.rest + g.ext
    requires FirstGroup(g.first) && RestGroup(g.rest) && ExtGroup(g.ext)
    ensures Base(dir + name) == name && Match(name) == Some(g) && g.number[..|g.number| - 1] == digits
  {
    assert g.number[..|g.number| - 1] == digits;
    assert forall i :: 0 <= i < |digits| ==> digits[i] != '/';
    assert '/' !in name;
    BaseOfPath(dir, name);
    assert name == g.number + g.first + g.rest + g.ext;
    MatchIsLeftmostFirst(name, g);
  }

  /** A name without a number, which cannot be read as one with a number, has no index. */
  lemma ParseUnnumbered(dir: string, first: string, rest: string, ext: string)
    requires IsDir(dir) && FirstGroup(first) && RestGroup(rest) && ExtGroup(ext) && '/' !in first && '/' !in rest
    requires !(Digits(first) && rest != "" && rest[1] != '-')
    ensures var info := Parse(dir + first + rest + ext);
      && info.baseName == first + rest + ext && info.fullName == dir + first + rest + ext
      && !info.hasIndex && info.index == 0 && NamedBy(info, first, rest, ext)
  {
    var name := first + rest + ext;
    assert dir + first + rest + ext == dir + name;
    UnnumberedMatches(dir, Groups("", first, rest, ext), name);
    TypeIsNamed(Parse(dir + name), first, rest, ext);
  }

  lemma UnnumberedMatches(dir: string, g: Groups, name: string)
    requires IsDir(dir) && g.number == "" && '/' !in g.first && '/' !in g.rest && name == g.first + g.rest + g.ext
    requires FirstGroup(g.first) && RestGroup(g.rest) && ExtGroup(g.ext)
    requires !(Digits(g.first) && g.rest != "" && g.rest[1] != '-')
    ensures Base(dir + name) == name && Match(name) == Some(g)
  {
    assert name == g.number + g.first + g.rest + g.ext && '/' !in name;
    BaseOfPath(dir, name);
    MatchIsLeftmostFirst(name, g);
    MatchSound(name);
    if Match(name).value.number != "" { NumberIsFirst(name, g, Match(name).value); }
  }

  lemma BodyOfName(name: string, g: Groups)
    requires Decomposes(name, g)
    ensures name[..IndexOf(name, '.')] == g.number + g.first + g.rest
  {
    var body := g.number + g.first + g.rest;
    NumberHasNoDot(g.number);
    IndexOfFirst(body, g.ext, '.');
    assert name == body + g.ext;
  }

  /** There is one way to split at the first dash. */
  lemma SplitAtDash(digits: string, tail: string, first: string, rest: string)
    requires '-' !in digits && '-' !in first && tail != "" && tail[0] == '-' && (rest != "" ==> rest[0] == '-')
    requires digits + tail == first + rest
    ensures digits == first && tail == rest
  {
    IndexOfFirst(digits, tail, '-');
    IndexOfFirst(first, rest, '-');
    assert (digits + tail)[..|digits|] == digits && (first + rest)[..|first|] == first;
    assert (digits + tail)[|digits|..] == tail && (first + rest)[|first|..] == rest;
  }

  /** A number in front of a name without one can only be that name's first component. */
  lemma NumberIsFirst(name: string, plain: Groups, numbered: Groups)
    requires Decomposes(name, plain) && plain.number == "" && Decomposes(name, numbered) && numbered.number != ""
    ensures Digits(plain.first) && plain.rest != "" && plain.rest[1] != '-'
  {
    BodyOfName(name, plain);
    BodyOfName(name, numbered);
    var digits := numbered.number[..|numbered.number| - 1];
    var tail := "-" + numbered.first + numbered.rest;
    assert numbered.number + numbered.first + numbered.rest == digits + tail;
    assert plain.number + plain.first + plain.rest == plain.first + plain.rest;
    SplitAtDash(digits, tail, plain.first, plain.rest);
    assert tail[1] == numbered.first[0];
  }

  predicate TooLarge(number: string)
  {
    number != "" && NumberGroup(number) && DecimalValue(number[..|number| - 1]) >= 0x8000_0000
  }

  /** A file is unusable exactly when its name does not follow the expression, or its number is 2^31 or more. */
  lemma UnknownExactly(fullName: string)
    ensures var name := Base(fullName);
      Parse(fullName).fileType.TypeUnknown? <==>
        (forall g :: !Decomposes(name, g)) || (exists g :: Decomposes(name, g) && TooLarge(g.number))
  {
    var name := Base(fullName);
    MatchSound(name);
    forall g | Decomposes(name, g)
      ensures Match(name).Some? && (g.number != "" ==> Match(name) == Some(g))
    {
      MatchIsLeftmostFirst(name, g);
    }
  }

  predicate Numbers(number: string, index: nat)
  {
    number != "" && NumberGroup(number) && DecimalValue(number[..|number| - 1]) == index
  }

  predicate HasNumber(info: Info, index: nat) { !info.fileType.TypeUnknown? && info.hasIndex && info.index == index }

  lemma NumberParsed(name: string, g: Groups, index: nat)
    requires Base(name) == name && Decomposes(name, g) && Match(name) == Some(g)
    ensures HasNumber(Parse(name), index) <==> index < 0x8000_0000 && Numbers(g.number, index)
  {
    var info := Parse(name);
    if g.number == "" {
      assert !info.hasIndex;
    } else if DecimalValue(g.number[..|g.number| - 1]) > MAX_INDEX {
      assert info.fileType.TypeUnknown?;
    } else {
      assert info.hasIndex && info.index == DecimalValue(g.number[..|g.number| - 1]);
    }
  }

  /** A name has a number exactly when it can be read by the expression as one that starts with it, below 2^31. */
  lemma NumberExactly(name: string, index: nat)
    requires IsName(name)
    ensures HasNumber(Parse(name), index) <==>
      index < 0x8000_0000 && exists g :: Decomposes(name, g) && Numbers(g.number, index)
  {
    BaseOfPath("", name);
    assert "" + name == name;
    MatchSound(name);
    if Match(name).Some? { NumberParsed(name, Match(name).value, index); }
    if g :| Decomposes(name, g) && Numbers(g.number, index) { MatchIsLeftmostFirst(name, g); }
  }

  function Decimal(n: nat): (s: string)
    ensures Digits(s) && DecimalValue(s) == n
  {
    var last := [('0' as int + n % 10) as char];
    if n < 10 then
      assert last[..0] == "";
      last
    else
      var s := Decimal(n / 10) + last;
      assert s[..|s| - 1] == Decimal(n / 10);
      s
  }

  /** Writing one more digit multiplies by ten and adds the digit. */
  lemma OneMoreDigit(s: string, d: char)
    requires AllDigits(s) && '0' <= d <= '9'
    ensures AllDigits(s + [d]) && DecimalValue(s + [d]) == 10 * DecimalValue(s) + (d - '0') as nat
    ensures DecimalValue([d]) == (d - '0') as nat
  {
    assert (s + [d])[..|s|] == s && [d][..0] == "";
  }

  /** A leading zero does not change the index. */
  lemma {:induction false} LeadingZero(s: string)
    requires Digits(s)
    ensures Digits("0" + s) && DecimalValue("0" + s) == DecimalValue(s)
  {
    var front := s[..|s| - 1];
    assert ("0" + s)[..|s|] == "0" + front;
    if front == "" {
      assert "0" + front == "0" && "0"[..0] == "" && DecimalValue("0") == 0;
    } else {
      LeadingZero(front);
    }
  }

  /** An index that does not fit in 32 bits makes the name unusable. */
  lemma LargeIndexIsUnknown(dir: string, digits: string, first: string, rest: string, ext: string)
    requires Digits(digits) && DecimalValue(digits) >= 0x8000_0000 && IsDir(dir)
    requires FirstGroup(first) && RestGroup(rest) && ExtGroup(ext) && '/' !in first && '/' !in rest
    ensures Parse(dir + (digits + "-" + first + rest + ext)).fileType.TypeUnknown?
  {
    NumberedMatches(dir, digits, Groups(digits + "-", first, rest, ext), digits + "-" + first + rest + ext);
  }
}
