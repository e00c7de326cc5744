/**
 * `__parseGLType`: maps a GLSL type token to the JavaScript array gl4u.js uses
 * as a type descriptor, `[base, size]` or `[base, size, rows, cols]`, or to `null`.
 */
module GLTypes {
  import opened Wrappers
  import opened Chars
  import GL

  /** A string of decimal digits, as `(\d*)` captures it (possibly empty). */
  type Digits = s: string | AllIn(s, Digit)

  /**
   * Slot 1 of a descriptor. The `vec`/`ivec` rows store the captured digit
   * string itself; the other rows store a number.
   */
  datatype Size = Number(n: nat) | DigitString(s: Digits)

  datatype TypeDesc =
    | Vector(base: int, size: Size)                                 // [base, size]
    | Matrix(base: int, size: Size, rows: Digits, cols: Digits)     // [base, size, rows, cols]

  /**
   * The result of `__parseGLType`: a descriptor, `null` for an unrecognised
   * type name, or the TypeError thrown when the token contains no `[A-Za-z_]`
   * at all (the regular expression then fails and its `null` result is indexed).
   */
  datatype Parse = Descriptor(desc: TypeDesc) | Null | NoMatch

  function DigitValue(c: char): nat
    requires IsDigit(c)
  {
    (c as int) - ('0' as int)
  }

  /**
   * JavaScript's string-to-number conversion on a digit string, as `td*td`
   * and WebGL's integer arguments apply it; the empty string converts to 0.
   */
  function DecimalValue(s: Digits): nat
  {
    if s == [] then 0 else 10 * DecimalValue(s[..|s| - 1]) + DigitValue(s[|s| - 1])
  }

  /** The number WebGL receives for slot 1 of a descriptor. */
  function SizeValue(z: Size): nat
  {
    match z
    case Number(n) => n
    case DigitString(s) => DecimalValue(s)
  }

  /** The decimal spelling of `n`, without leading zeros. */
  function Decimal(n: nat): (s: Digits)
    ensures |s| > 0
  {
    var d := ((n % 10) + ('0' as int)) as char;
    if n < 10 then [d] else Decimal(n / 10) + [d]
  }

  lemma {:induction false} DecimalValueOfDecimal(n: nat)
    ensures DecimalValue(Decimal(n)) == n
  {
    if n >= 10 {
      var s := Decimal(n);
      assert s[..|s| - 1] == Decimal(n / 10);
      DecimalValueOfDecimal(n / 10);
    }
  }

  /**
   * The first match of `/([A-Za-z_]+)(\d*)/` in `token` at or after position
   * `i`: the type name and the digit suffix that follows it, or None when no
   * letter follows.
   */
  function FindNameFrom(token: string, i: nat): (r: Option<(string, Digits)>)
    requires i <= |token|
    ensures r.None? <==> forall m | i <= m < |token| :: !IsLetter(token[m])
    ensures r.Some? ==> |r.value.0| > 0 && AllIn(r.value.0, Letter)
    decreases |token| - i
  {
    if i == |token| then None
    else if IsLetter(token[i]) then
      var a := RunEnd(token, i, Letter);
      var d := RunEnd(token, a, Digit);
      RunEndIsRun(token, i, Letter);
      RunEndIsRun(token, a, Digit);
      Some((token[i..a], token[a..d]))
    else FindNameFrom(token, i + 1)
  }

  /** The first match of `/([A-Za-z_]+)(\d*)/` in `token`. */
  function FindName(token: string): (r: Option<(string, Digits)>)
    ensures r.None? <==> forall m | 0 <= m < |token| :: !IsLetter(token[m])
  {
    FindNameFrom(token, 0)
  }

  function ParseGLType(token: string): (r: Parse)
    ensures r.NoMatch? <==> forall i | 0 <= i < |token| :: !IsLetter(token[i])
    ensures r.Descriptor? ==> r.desc.base == GL.FLOAT || r.desc.base == GL.INT
    ensures r.Descriptor? && r.desc.Matrix? ==>
              r.desc.rows == r.desc.cols &&
              SizeValue(r.desc.size) == DecimalValue(r.desc.rows) * DecimalValue(r.desc.cols)
  {
    match FindName(token)
    case None => NoMatch
    case Some((tn, td)) =>
      if tn == "float" then Descriptor(Vector(GL.FLOAT, Number(1)))
      else if tn == "vec" then Descriptor(Vector(GL.FLOAT, DigitString(td)))
      else if tn == "mat" then Descriptor(Matrix(GL.FLOAT, Number(DecimalValue(td) * DecimalValue(td)), td, td))
      else if tn == "int" then Descriptor(Vector(GL.INT, Number(1)))
      else if tn == "ivec" then Descriptor(Vector(GL.INT, DigitString(td)))
      else if tn == "imat" then Descriptor(Matrix(GL.INT, Number(DecimalValue(td) * DecimalValue(td)), td, td))
      else Null
  }

  /** The slot `type` field built from a parse: the descriptor, or `null`. */
  function TypeOf(p: Parse): Option<TypeDesc>
  {
    if p.Descriptor? then Some(p.desc) else None
  }

  /**
   * The match is found at the first letter: when a letter run `tn` starts at
   * position `i`, followed by a digit run `td` and then by a character that
   * continues neither, the type name is `tn` and the suffix is `td`.
   */
  lemma {:induction false} FindNameOf(token: string, j: nat, i: nat, tn: string, td: Digits)
    requires Occurs(token, i, tn) && Occurs(token, i + |tn|, td)
    requires j <= i && (forall m | j <= m < i :: !IsLetter(token[m]))
    requires |tn| > 0 && AllIn(tn, Letter)
    requires i + |tn| + |td| < |token| ==>
               !IsDigit(token[i + |tn| + |td|]) && (td == [] ==> !IsLetter(token[i + |tn|]))
    ensures FindNameFrom(token, j) == Some((tn, td))
    decreases i - j
  {
    if j < i {
      FindNameOf(token, j + 1, i, tn, td);
    } else {
      var a, d := i + |tn|, i + |tn| + |td|;
      assert token[i + 0] == tn[0];
      forall m | i <= m < a ensures In(token[m], Letter) {
        assert token[i + (m - i)] == tn[m - i];
      }
      forall m | a <= m < d ensures In(token[m], Digit) {
        assert token[a + (m - a)] == td[m - a];
      }
      RunEndOf(token, i, a, Letter);
      RunEndOf(token, a, d, Digit);
      OccursSlice(token, i, tn);
      OccursSlice(token, a, td);
    }
  }

  /** A token that is a type name followed by digits parses by the name alone. */
  lemma {:induction false} NameAndSuffix(tn: string, td: Digits)
    requires |tn| > 0 && AllIn(tn, Letter)
    ensures FindName(tn + td) == Some((tn, td))
  {
    var token := tn + td;
    assert Occurs(token, 0, token);
    OccursSplit(token, 0, tn, td);
    FindNameOf(token, 0, 0, tn, td);
  }

  /** `float` and `int` are scalars: base FLOAT or INT with one component. */
  lemma {:induction false} ScalarTypes()
    ensures ParseGLType("float") == Descriptor(Vector(GL.FLOAT, Number(1)))
    ensures ParseGLType("int") == Descriptor(Vector(GL.INT, Number(1)))
  {
    NameAndSuffix("float", "");
    assert "float" + "" == "float";
    NameAndSuffix("int", "");
    assert "int" + "" == "int";
  }

  /**
   * `vecN` and `ivecN` carry base FLOAT or INT and the suffix string `N`,
   * which converts to the component count `N`.
   */
  lemma {:induction false} VectorTypes(n: nat)
    ensures ParseGLType("vec" + Decimal(n)) == Descriptor(Vector(GL.FLOAT, DigitString(Decimal(n))))
    ensures ParseGLType("ivec" + Decimal(n)) == Descriptor(Vector(GL.INT, DigitString(Decimal(n))))
    ensures SizeValue(DigitString(Decimal(n))) == n
  {
    NameAndSuffix("vec", Decimal(n));
    NameAndSuffix("ivec", Decimal(n));
    DecimalValueOfDecimal(n);
  }

  /**
   * `matN` and `imatN` carry base FLOAT or INT, the component count `N*N`,
   * and `N` as both row and column count.
   */
  lemma {:induction false} MatrixTypes(n: nat)
    ensures ParseGLType("mat" + Decimal(n)) == Descriptor(Matrix(GL.FLOAT, Number(n * n), Decimal(n), Decimal(n)))
    ensures ParseGLType("imat" + Decimal(n)) == Descriptor(Matrix(GL.INT, Number(n * n), Decimal(n), Decimal(n)))
    ensures DecimalValue(Decimal(n)) == n
  {
    NameAndSuffix("mat", Decimal(n));
    NameAndSuffix("imat", Decimal(n));
    DecimalValueOfDecimal(n);
  }

  /**
   * Without a suffix, `vec` keeps the empty string (which converts to 0) and
   * `mat` gets the count `'' * ''`, that is 0.
   */
  lemma {:induction false} MissingSuffix()
    ensures ParseGLType("vec") == Descriptor(Vector(GL.FLOAT, DigitString("")))
    ensures SizeValue(DigitString("")) == 0
    ensures ParseGLType("mat") == Descriptor(Matrix(GL.FLOAT, Number(0), "", ""))
  {
    NameAndSuffix("vec", "");
    assert "vec" + "" == "vec";
    NameAndSuffix("mat", "");
    assert "mat" + "" == "mat";
  }

  /** The six recognised type names. */
  predicate KnownName(tn: string) {
    tn == "float" || tn == "vec" || tn == "mat" || tn == "int" || tn == "ivec" || tn == "imat"
  }

  /**
   * A letter run, a digit run and then any text that continues neither: the
   * match stops where the runs do.
   */
  lemma {:induction false} NameSuffixRest(tn: string, td: Digits, rest: string)
    requires |tn| > 0 && AllIn(tn, Letter)
    requires rest != [] ==> !IsDigit(rest[0]) && (td == [] ==> !IsLetter(rest[0]))
    ensures FindName(tn + td + rest) == Some((tn, td))
  {
    TokenLayout(tn, td, rest);
    FindNameOf(tn + td + rest, 0, 0, tn, td);
  }

  /** Where the name, the suffix and the rest sit in `tn + td + rest`. */
  lemma {:induction false} TokenLayout(tn: string, td: Digits, rest: string)
    requires rest != [] ==> !IsDigit(rest[0]) && (td == [] ==> !IsLetter(rest[0]))
    ensures var token := tn + td + rest;
      Occurs(token, 0, tn) && Occurs(token, |tn|, td) &&
      (|tn| + |td| < |token| ==> !IsDigit(token[|tn| + |td|]) && (td == [] ==> !IsLetter(token[|tn|])))
  {
    var token := tn + td + rest;
    assert Occurs(token, 0, token);
    OccursSplit(token, 0, tn + td, rest);
    OccursSplit(token, 0, tn, td);
    assert |tn| + |td| < |token| ==> token[|tn| + |td| + 0] == rest[0];
    assert |tn| < |token| && td == [] ==> token[|tn|] == rest[0];
  }

  /** Every other type name, `sampler` included, gives `null`. */
  lemma {:induction false} UnknownTypes(tn: string, td: Digits, rest: string)
    requires |tn| > 0 && AllIn(tn, Letter) && !KnownName(tn)
    requires rest != [] ==> !IsDigit(rest[0]) && (td == [] ==> !IsLetter(rest[0]))
    ensures ParseGLType(tn + td + rest) == Null
  {
    NameSuffixRest(tn, td, rest);
  }

  /** `sampler2D` and `samplerCube` have no descriptor. */
  lemma {:induction false} SamplerTypes()
    ensures ParseGLType("sampler2D") == Null
    ensures ParseGLType("samplerCube") == Null
  {
    UnknownTypes("sampler", "2", "D");
    assert "sampler2D" == "sampler" + "2" + "D";
    UnknownTypes("samplerCube", "", "");
    assert "samplerCube" == "samplerCube" + "" + "";
  }
}
