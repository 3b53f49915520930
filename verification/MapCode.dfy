/** The shareable recipe code for procedural maps: validation, printing, parsing. */
module MapCode {
  import opened Text

  const CODE_PREFIX := "CM1"
  const CODE_VERSION := 1
  const MAX_LENGTH := 256
  const MAX_SEED := 2_147_483_647
  const MAX_VERBS := 4

  predicate IsTheme(s: string) {
    s in {"crypt", "gallery", "ash", "archive", "iron", "basilica", "bell", "glass", "water"}
  }

  predicate IsVerb(s: string) {
    s in {"hunt", "patrol", "lever", "sluice", "keys", "traps", "treasure", "secret", "guardian", "puzzle"}
  }

  function RequiredFields(): set<string> {
    {"theme", "size", "verbs", "enemies", "treasures", "secrets", "difficulty", "seed"}
  }

  predicate IsField(s: string) {
    s in RequiredFields()
  }

  datatype Recipe = Recipe(
    theme: string, width: int, height: int, verbs: seq<string>,
    enemies: int, treasures: int, secrets: int, difficulty: int, seed: int, version: int)

  datatype Fault =
    | BadVersion | BadTheme | NoVerbs | TooManyVerbs | RepeatedVerb | UnknownVerb | NotInteger | OutOfRange
    | BadLength | BadPrefix | NotKeyValue | UnknownField | DuplicateField | MissingField | BadSize

  datatype Result<+T> = Ok(value: T) | Err(fault: Fault)

  function NormalizeTheme(raw: string): Result<string> {
    var theme := Lower(Strip(raw));
    if IsTheme(theme) then Ok(theme) else Err(BadTheme)
  }

  /** Stripped and lowered, blanks dropped. */
  function CleanVerbs(parts: seq<string>): seq<string> {
    if parts == [] then []
    else if Strip(parts[0]) == "" then CleanVerbs(parts[1..])
    else [Lower(Strip(parts[0]))] + CleanVerbs(parts[1..])
  }

  predicate Distinct(s: seq<string>) {
    forall i, j :: 0 <= i < j < |s| ==> s[i] != s[j]
  }

  function NormalizeVerbs(raw: string): Result<seq<string>> {
    var values := CleanVerbs(Split(raw, ','));
    if values == [] then Err(NoVerbs)
    else if |values| > MAX_VERBS then Err(TooManyVerbs)
    else if !Distinct(values) then Err(RepeatedVerb)
    else if exists v :: v in values && !IsVerb(v) then Err(UnknownVerb)
    else Ok(values)
  }

  predicate InRange(r: Recipe) {
    && 7 <= r.width <= 19 && 7 <= r.height <= 15
    && 2 <= r.enemies <= 8 && 0 <= r.treasures <= 4 && 0 <= r.secrets <= 3
    && 1 <= r.difficulty <= 5 && 0 <= r.seed <= MAX_SEED
  }

  /** Validation normalises the words and bounds the numbers. */
  function Validate(r: Recipe): (v: Result<Recipe>)
    ensures v.Ok? ==> InRange(v.value)
  {
    if r.version != CODE_VERSION then Err(BadVersion) else
    var theme := NormalizeTheme(r.theme);
    if theme.Err? then Err(theme.fault) else
    var verbs := NormalizeVerbs(Join(r.verbs, ','));
    if verbs.Err? then Err(verbs.fault)
    else if !InRange(r) then Err(OutOfRange)
    else Ok(r.(theme := theme.value, verbs := verbs.value))
  }

  /** A recipe that is already in normal form. */
  ghost predicate Normal(r: Recipe) {
    && r.version == CODE_VERSION && IsTheme(r.theme) && InRange(r)
    && 1 <= |r.verbs| <= MAX_VERBS && Distinct(r.verbs) && forall i :: 0 <= i < |r.verbs| ==> IsVerb(r.verbs[i])
  }

  function Token(key: string, value: string): string {
    key + "=" + value
  }

  function Tokens(r: Recipe): seq<string>
    requires InRange(r)
  {
    [Token("theme", r.theme),
     Token("size", FromNat(r.width) + "x" + FromNat(r.height)),
     Token("verbs", Join(r.verbs, ',')),
     Token("enemies", FromNat(r.enemies)),
     Token("treasures", FromNat(r.treasures)),
     Token("secrets", FromNat(r.secrets)),
     Token("difficulty", FromNat(r.difficulty)),
     Token("seed", FromNat(r.seed))]
  }

  function Encode(r: Recipe): Result<string> {
    var v := Validate(r);
    if v.Err? then Err(v.fault) else Ok(Join([CODE_PREFIX] + Tokens(v.value), '|'))
  }

  function KeyOf(token: string): string {
    Lower(Strip(token[..FirstIndex(token, '=')]))
  }

  function ValueOf(token: string): string
    requires '=' in token
  {
    Strip(token[FirstIndex(token, '=') + 1..])
  }

  function AddField(fields: map<string, string>, token: string): Result<map<string, string>> {
    if '=' !in token then Err(NotKeyValue)
    else if !IsField(KeyOf(token)) then Err(UnknownField)
    else if KeyOf(token) in fields then Err(DuplicateField)
    else Ok(fields[KeyOf(token) := ValueOf(token)])
  }

  function FieldsOf(tokens: seq<string>): Result<map<string, string>> {
    if tokens == [] then Ok(map[])
    else
      var before := FieldsOf(tokens[..|tokens| - 1]);
      if before.Err? then before else AddField(before.value, tokens[|tokens| - 1])
  }

  function ReadNumber(raw: string, least: int, most: int): Result<int> {
    if !AllDigits(raw) then Err(NotInteger)
    else if ToNat(raw) < least || ToNat(raw) > most then Err(OutOfRange)
    else Ok(ToNat(raw))
  }

  /** WIDTHxHEIGHT, one or two digits each. */
  function SizeOf(raw: string): Result<(string, string)> {
    var k := FirstIndex(raw, 'x');
    if k < |raw| && k <= 2 && |raw| - k - 1 <= 2 && AllDigits(raw[..k]) && AllDigits(raw[k + 1..])
    then Ok((raw[..k], raw[k + 1..])) else Err(BadSize)
  }

  function ReadRecipe(fields: map<string, string>): Result<Recipe> {
    if !(RequiredFields() <= fields.Keys) then Err(MissingField) else
    var size := SizeOf(Lower(fields["size"]));
    if size.Err? then Err(size.fault) else
    var theme := NormalizeTheme(fields["theme"]);
    if theme.Err? then Err(theme.fault) else
    var width, height := ReadNumber(size.value.0, 7, 19), ReadNumber(size.value.1, 7, 15);
    if width.Err? then Err(width.fault) else if height.Err? then Err(height.fault) else
    var verbs := NormalizeVerbs(fields["verbs"]);
    if verbs.Err? then Err(verbs.fault) else
    var enemies, treasures, secrets := ReadNumber(fields["enemies"], 2, 8), ReadNumber(fields["treasures"], 0, 4), ReadNumber(fields["secrets"], 0, 3);
    if enemies.Err? then Err(enemies.fault) else if treasures.Err? then Err(treasures.fault) else if secrets.Err? then Err(secrets.fault) else
    var difficulty, seed := ReadNumber(fields["difficulty"], 1, 5), ReadNumber(fields["seed"], 0, MAX_SEED);
    if difficulty.Err? then Err(difficulty.fault) else if seed.Err? then Err(seed.fault) else
    Validate(Recipe(theme.value, width.value, height.value, verbs.value, enemies.value, treasures.value, secrets.value, difficulty.value, seed.value, CODE_VERSION))
  }

  function Parsed(raw: string): Result<Recipe> {
    var code := Strip(raw);
    if code == "" || |code| > MAX_LENGTH then Err(BadLength) else
    var parts := Split(code, '|');
    if Upper(parts[0]) != CODE_PREFIX then Err(BadPrefix) else
    var fields := FieldsOf(parts[1..]);
    if fields.Err? then Err(fields.fault) else ReadRecipe(fields.value)
  }

  /** The parser as written: a dictionary filled token by token. */
  method Parse(raw: string) returns (r: Result<Recipe>)
    ensures r == Parsed(raw)
  {
    hide RequiredFields;
    hide Strip;
    hide Split;
    hide Upper;
    hide KeyOf;
    hide ValueOf;
    hide ReadRecipe;
    var code := Strip(raw);
    if code == "" || |code| > MAX_LENGTH {
      return Err(BadLength);
    }
    var parts := Split(code, '|');
    if Upper(parts[0]) != CODE_PREFIX {
      return Err(BadPrefix);
    }
    var fields: map<string, string> := map[];
    var tokens := parts[1..];
    for i := 0 to |tokens|
      invariant FieldsOf(tokens[..i]) == Ok(fields)
    {
      assert tokens[..i + 1][..i] == tokens[..i];
      var token := tokens[i];
      if '=' !in token {
        FaultStays(tokens, i + 1);
        return Err(NotKeyValue);
      }
      var key := KeyOf(token);
      if !IsField(key) {
        FaultStays(tokens, i + 1);
        return Err(UnknownField);
      }
      if key in fields {
        FaultStays(tokens, i + 1);
        return Err(DuplicateField);
      }
      fields := fields[key := ValueOf(token)];
    }
    assert tokens[..|tokens|] == tokens;
    r := ReadRecipe(fields);
  }

  /** The first bad token decides the error. */
  lemma {:induction false} FaultStays(tokens: seq<string>, i: nat)
    requires i <= |tokens| && FieldsOf(tokens[..i]).Err?
    ensures FieldsOf(tokens) == FieldsOf(tokens[..i])
  {
    hide AddField;
    if i == |tokens| {
      assert tokens[..i] == tokens;
    } else {
      var n := |tokens| - 1;
      assert tokens[..n][..i] == tokens[..i];
      FaultStays(tokens[..n], i);
    }
  }

  predicate LowerWord(s: string) {
    s != "" && forall i :: 0 <= i < |s| ==> 'a' <= s[i] <= 'z'
  }

  lemma ThemeIsWord(s: string)
    requires IsTheme(s)
    ensures LowerWord(s) && |s| <= 8
  {
  }

  lemma VerbIsWord(s: string)
    requires IsVerb(s)
    ensures LowerWord(s) && |s| <= 8
  {
  }

  /** The required names, one by one. */
  lemma RequiredNames(m: map<string, string>)
    ensures IsField("theme") && IsField("size") && IsField("verbs") && IsField("enemies")
    ensures IsField("treasures") && IsField("secrets") && IsField("difficulty") && IsField("seed")
    ensures RequiredFields() <= m.Keys <==>
      "theme" in m && "size" in m && "verbs" in m && "enemies" in m && "treasures" in m && "secrets" in m && "difficulty" in m && "seed" in m
    ensures RequiredFields() <= m.Keys <==> forall f :: IsField(f) ==> f in m
  {
  }

  lemma WordIsPlain(s: string)
    requires LowerWord(s)
    ensures Lower(s) == s && Strip(s) == s && Trimmed(s)
    ensures ',' !in s && '|' !in s && '=' !in s
  {
    StripIs(s, "", s, "");
    assert "" + s + "" == s;
  }

  lemma {:induction false} PlainVerbs(verbs: seq<string>)
    requires forall i :: 0 <= i < |verbs| ==> IsVerb(verbs[i])
    ensures CleanVerbs(verbs) == verbs
  {
    hide IsVerb;
    hide Strip;
    hide Lower;
    if verbs != [] {
      VerbIsWord(verbs[0]);
      WordIsPlain(verbs[0]);
      PlainVerbs(verbs[1..]);
    }
  }

  lemma VerbsRoundTrip(verbs: seq<string>)
    requires 1 <= |verbs| <= MAX_VERBS && Distinct(verbs) && forall i :: 0 <= i < |verbs| ==> IsVerb(verbs[i])
    ensures NormalizeVerbs(Join(verbs, ',')) == Ok(verbs)
  {
    hide IsVerb;
    hide Strip;
    hide Lower;
    hide CleanVerbs;
    hide Split;
    forall i | 0 <= i < |verbs|
      ensures ',' !in verbs[i]
    {
      VerbIsWord(verbs[i]);
      WordIsPlain(verbs[i]);
    }
    SplitJoin(verbs, ',');
    PlainVerbs(verbs);
  }

  /** Validation yields a normal form and leaves normal forms alone. */
  lemma ValidateNormalises(r: Recipe)
    ensures Validate(r).Ok? ==> Normal(Validate(r).value)
    ensures Normal(r) ==> Validate(r) == Ok(r)
  {
    hide IsVerb;
    hide IsTheme;
    hide Strip;
    hide Lower;
    hide CleanVerbs;
    hide Split;
    hide Join;
    if Normal(r) {
      ThemeIsWord(r.theme);
      WordIsPlain(r.theme);
      VerbsRoundTrip(r.verbs);
    }
  }

  /** Keys are known and no key comes twice. */
  ghost predicate GoodTokens(tokens: seq<string>) {
    && (forall i :: 0 <= i < |tokens| ==> '=' in tokens[i] && IsField(KeyOf(tokens[i])))
    && forall i, j :: 0 <= i < j < |tokens| ==> KeyOf(tokens[i]) != KeyOf(tokens[j])
  }

  /** The dictionary holds exactly the tokens' values under their keys. */
  ghost predicate Holds(fields: map<string, string>, tokens: seq<string>) {
    && (forall i :: 0 <= i < |tokens| ==> '=' in tokens[i] && KeyOf(tokens[i]) in fields && fields[KeyOf(tokens[i])] == ValueOf(tokens[i]))
    && forall k :: k in fields ==> exists i :: 0 <= i < |tokens| && KeyOf(tokens[i]) == k
  }

  /** One more token: accepted exactly when it is well formed, known and new. */
  lemma OneMoreField(tokens: seq<string>, m: map<string, string>, token: string)
    requires GoodTokens(tokens) && Holds(m, tokens)
    ensures AddField(m, token).Ok? <==> GoodTokens(tokens + [token])
    ensures AddField(m, token).Ok? ==> Holds(AddField(m, token).value, tokens + [token])
  {
    hide KeyOf;
    hide ValueOf;
    hide IsField;
    var longer := tokens + [token];
    assert forall i :: 0 <= i < |tokens| ==> longer[i] == tokens[i];
    assert longer[|tokens|] == token;
    if '=' in token && KeyOf(token) in m {
      var i :| 0 <= i < |tokens| && KeyOf(tokens[i]) == KeyOf(token);
      assert KeyOf(longer[i]) == KeyOf(longer[|tokens|]);
    }
    if AddField(m, token).Ok? {
      forall k | k in AddField(m, token).value
        ensures exists i :: 0 <= i < |longer| && KeyOf(longer[i]) == k
      {
        if k == KeyOf(token) {
          assert KeyOf(longer[|tokens|]) == k;
        } else {
          var i :| 0 <= i < |tokens| && KeyOf(tokens[i]) == k;
          assert KeyOf(longer[i]) == k;
        }
      }
    }
  }

  lemma {:induction false} FieldsExactly(tokens: seq<string>)
    ensures FieldsOf(tokens).Ok? <==> GoodTokens(tokens)
    ensures FieldsOf(tokens).Ok? ==> Holds(FieldsOf(tokens).value, tokens)
  {
    hide KeyOf;
    hide ValueOf;
    hide IsField;
    hide AddField;
    if tokens != [] {
      var n := |tokens| - 1;
      var rest, last := tokens[..n], tokens[n];
      FieldsExactly(rest);
      assert tokens == rest + [last];
      if FieldsOf(rest).Ok? {
        OneMoreField(rest, FieldsOf(rest).value, last);
      } else {
        assert GoodTokens(tokens) ==> GoodTokens(rest);
      }
    }
  }

  predicate Number(s: string, n: int) {
    AllDigits(s) && ToNat(s) == n
  }

  /** What one token says about a recipe. */
  predicate TokenDenotes(token: string, r: Recipe) {
    '=' in token && FieldDenotes(KeyOf(token), ValueOf(token), r)
  }

  predicate FieldDenotes(key: string, value: string, r: Recipe) {
    if key == "theme" then NormalizeTheme(value) == Ok(r.theme)
    else if key == "size" then SizeDenotes(value, r)
    else if key == "verbs" then NormalizeVerbs(value) == Ok(r.verbs)
    else IsField(key) && Number(value, NumberField(r, key))
  }

  predicate SizeDenotes(value: string, r: Recipe) {
    var size := SizeOf(Lower(value));
    size.Ok? && Number(size.value.0, r.width) && Number(size.value.1, r.height)
  }

  function NumberField(r: Recipe, key: string): int {
    if key == "enemies" then r.enemies
    else if key == "treasures" then r.treasures
    else if key == "secrets" then r.secrets
    else if key == "difficulty" then r.difficulty
    else r.seed
  }

  /** What a code means, without saying in which order its tokens come. */
  ghost predicate Denotes(raw: string, r: Recipe) {
    var code := Strip(raw);
    && code != "" && |code| <= MAX_LENGTH
    && Upper(Split(code, '|')[0]) == CODE_PREFIX
    && TokensDenote(Split(code, '|')[1..], r)
  }

  ghost predicate TokensDenote(tokens: seq<string>, r: Recipe) {
    && GoodTokens(tokens)
    && (forall f :: IsField(f) ==> exists i :: 0 <= i < |tokens| && KeyOf(tokens[i]) == f)
    && (forall i :: 0 <= i < |tokens| ==> TokenDenotes(tokens[i], r))
    && r.version == CODE_VERSION && InRange(r)
  }

  ghost predicate FieldsDenote(m: map<string, string>, r: Recipe) {
    && RequiredFields() <= m.Keys
    && NormalizeTheme(m["theme"]) == Ok(r.theme)
    && SizeDenotes(m["size"], r)
    && NormalizeVerbs(m["verbs"]) == Ok(r.verbs)
    && Number(m["enemies"], r.enemies) && Number(m["treasures"], r.treasures) && Number(m["secrets"], r.secrets)
    && Number(m["difficulty"], r.difficulty) && Number(m["seed"], r.seed)
    && r.version == CODE_VERSION && InRange(r)
  }

  lemma ReadExactly(m: map<string, string>, r: Recipe)
    ensures ReadRecipe(m) == Ok(r) <==> FieldsDenote(m, r)
  {
    hide IsVerb;
    hide IsTheme;
    hide Strip;
    hide Lower;
    hide CleanVerbs;
    hide Split;
    hide Join;
    hide NormalizeTheme;
    hide NormalizeVerbs;
    hide SizeOf;
    hide ToNat;
    hide AllDigits;
    hide RequiredFields;
    hide Validate;
    if ReadRecipe(m).Ok? {
      ReadIsNormal(m);
    }
    if FieldsDenote(m, r) {
      FieldsNormal(m, r);
      ValidateNormalises(r);
    }
  }

  lemma FieldsNormal(m: map<string, string>, r: Recipe)
    requires FieldsDenote(m, r)
    ensures Normal(r)
  {
    hide Strip;
    hide Lower;
    hide CleanVerbs;
    hide Split;
    hide SizeOf;
    hide ToNat;
    hide RequiredFields;
    hide IsVerb;
    hide IsTheme;
  }

  /** Whatever is read is already normal, so validating it again changes nothing. */
  lemma ReadIsNormal(m: map<string, string>)
    requires ReadRecipe(m).Ok?
    ensures FieldsDenote(m, ReadRecipe(m).value)
  {
    hide IsVerb;
    hide IsTheme;
    hide Strip;
    hide Lower;
    hide CleanVerbs;
    hide Split;
    hide Join;
    hide SizeOf;
    hide ToNat;
    hide RequiredFields;
    RequiredNames(m);
    var size := SizeOf(Lower(m["size"])).value;
    var r := Recipe(NormalizeTheme(m["theme"]).value, ToNat(size.0), ToNat(size.1), NormalizeVerbs(m["verbs"]).value,
                    ToNat(m["enemies"]), ToNat(m["treasures"]), ToNat(m["secrets"]), ToNat(m["difficulty"]), ToNat(m["seed"]), CODE_VERSION);
    assert ReadRecipe(m) == Validate(r);
    assert Normal(r);
    ValidateNormalises(r);
  }

  /** A dictionary denotes a recipe field by field. */
  lemma FieldByField(m: map<string, string>, r: Recipe)
    ensures FieldsDenote(m, r) <==>
      (forall f :: IsField(f) ==> f in m && FieldDenotes(f, m[f], r)) && r.version == CODE_VERSION && InRange(r)
  {
    hide SizeDenotes;
    hide NormalizeTheme;
    hide NormalizeVerbs;
    hide Number;
    hide InRange;
    RequiredNames(m);
    if FieldsDenote(m, r) {
      forall f | IsField(f)
        ensures f in m && FieldDenotes(f, m[f], r)
      {
      }
    }
    if forall f :: IsField(f) ==> f in m && FieldDenotes(f, m[f], r) {
      hide IsField;
      assert FieldDenotes("theme", m["theme"], r) && FieldDenotes("size", m["size"], r) && FieldDenotes("verbs", m["verbs"], r);
      assert FieldDenotes("enemies", m["enemies"], r) && FieldDenotes("treasures", m["treasures"], r) && FieldDenotes("secrets", m["secrets"], r);
      assert FieldDenotes("difficulty", m["difficulty"], r) && FieldDenotes("seed", m["seed"], r);
    }
  }

  /** The tokens say what the dictionary they fill says. */
  lemma TokensFillFields(tokens: seq<string>, r: Recipe)
    requires GoodTokens(tokens)
    ensures FieldsOf(tokens).Ok?
    ensures FieldsDenote(FieldsOf(tokens).value, r) <==> TokensDenote(tokens, r)
  {
    hide KeyOf;
    hide ValueOf;
    hide FieldDenotes;
    hide InRange;
    hide IsField;
    hide FieldsDenote;
    FieldsExactly(tokens);
    var m := FieldsOf(tokens).value;
    FieldByField(m, r);
    if TokensDenote(tokens, r) {
      forall f | IsField(f)
        ensures f in m && FieldDenotes(f, m[f], r)
      {
        var i :| 0 <= i < |tokens| && KeyOf(tokens[i]) == f;
        assert TokenDenotes(tokens[i], r);
      }
    }
    if FieldsDenote(m, r) {
      forall i | 0 <= i < |tokens|
        ensures TokenDenotes(tokens[i], r)
      {
        assert IsField(KeyOf(tokens[i]));
      }
    }
  }

  /** The parser accepts exactly the codes that denote a recipe, and returns it. */
  lemma ParseExactly(raw: string, r: Recipe)
    ensures Parsed(raw) == Ok(r) <==> Denotes(raw, r)
  {
    var code := Strip(raw);
    var tokens := Split(code, '|')[1..];
    FieldsExactly(tokens);
    if GoodTokens(tokens) {
      TokensFillFields(tokens, r);
      ReadExactly(FieldsOf(tokens).value, r);
    }
  }

  /** A printed value: nothing to strip and no separator inside. */
  predicate Printable(value: string) {
    value != "" && Trimmed(value) && '|' !in value
  }

  /** A printed token gives its key and value back. */
  lemma TokenParts(key: string, value: string)
    requires LowerWord(key) && Printable(value)
    ensures var t := Token(key, value);
      '=' in t && '|' !in t && KeyOf(t) == key && ValueOf(t) == value && |t| == |key| + 1 + |value|
  {
    var t := Token(key, value);
    WordIsPlain(key);
    assert t[|key|] == '=' && forall i :: 0 <= i < |key| ==> t[i] == key[i];
    assert FirstIndex(t, '=') == |key|;
    assert t[..|key|] == key && t[|key| + 1..] == value;
    assert "" + value + "" == value;
    StripIs(value, "", value, "");
  }

  lemma DigitsPrintable(n: nat)
    ensures Printable(FromNat(n)) && Number(FromNat(n), n)
  {
  }

  lemma SizePrints(r: Recipe)
    requires InRange(r)
    ensures var value := FromNat(r.width) + "x" + FromNat(r.height);
      Printable(value) && SizeDenotes(value, r) && |value| <= 5
  {
    var w, h := FromNat(r.width), FromNat(r.height);
    hide FromNat;
    FromNatLength(r.width, 2, 100);
    FromNatLength(r.height, 2, 100);
    SizeReads(w, h, r);
  }

  lemma SizeSplits(w: string, h: string)
    requires AllDigits(w) && AllDigits(h)
    ensures FirstIndex(w + "x" + h, 'x') == |w|
    ensures (w + "x" + h)[..|w|] == w && (w + "x" + h)[|w| + 1..] == h
  {
    var value := w + "x" + h;
    assert value[|w|] == 'x' && forall i :: 0 <= i < |w| ==> value[i] == w[i] != 'x';
  }

  lemma SizePlain(w: string, h: string)
    requires AllDigits(w) && AllDigits(h)
    ensures Printable(w + "x" + h) && Lower(w + "x" + h) == w + "x" + h
  {
    NoCapitals(w + "x" + h);
    hide Lower;
  }

  lemma SizeReads(w: string, h: string, r: Recipe)
    requires Number(w, r.width) && Number(h, r.height) && |w| <= 2 && |h| <= 2
    ensures Printable(w + "x" + h) && SizeDenotes(w + "x" + h, r)
  {
    SizeSplits(w, h);
    SizePlain(w, h);
    hide Lower;
    hide Printable;
    hide FirstIndex;
    hide ToNat;
  }

  lemma VerbsPrint(verbs: seq<string>)
    requires 1 <= |verbs| <= MAX_VERBS && forall i :: 0 <= i < |verbs| ==> IsVerb(verbs[i])
    ensures Printable(Join(verbs, ',')) && |Join(verbs, ',')| <= 36
  {
    hide IsVerb;
    hide Join;
    hide Strip;
    hide Trimmed;
    forall i | 0 <= i < |verbs|
      ensures verbs[i] != "" && Trimmed(verbs[i]) && '|' !in verbs[i] && |verbs[i]| <= 8
    {
      VerbIsWord(verbs[i]);
      WordIsPlain(verbs[i]);
    }
    JoinTrimmed(verbs, ',');
    JoinOmits(verbs, ',', '|');
    JoinLength(verbs, ',', 8);
  }

  function FieldOrder(): seq<string> {
    ["theme", "size", "verbs", "enemies", "treasures", "secrets", "difficulty", "seed"]
  }

  lemma FieldNames()
    ensures |FieldOrder()| == 8 && Distinct(FieldOrder())
    ensures forall i :: 0 <= i < 8 ==> IsField(FieldOrder()[i]) && LowerWord(FieldOrder()[i]) && |FieldOrder()[i]| <= 10
    ensures forall f :: IsField(f) ==> f in FieldOrder()
  {
    var o := FieldOrder();
    assert o[0] == "theme" && o[1] == "size" && o[2] == "verbs" && o[3] == "enemies";
    assert o[4] == "treasures" && o[5] == "secrets" && o[6] == "difficulty" && o[7] == "seed";
  }

  function Values(r: Recipe): seq<string>
    requires InRange(r)
  {
    [r.theme, FromNat(r.width) + "x" + FromNat(r.height), Join(r.verbs, ','),
     FromNat(r.enemies), FromNat(r.treasures), FromNat(r.secrets), FromNat(r.difficulty), FromNat(r.seed)]
  }

  lemma ValuesPrint(r: Recipe)
    requires Normal(r)
    ensures |Values(r)| == 8 && |FieldOrder()| == 8
    ensures forall i :: 0 <= i < 8 ==> Printable(Values(r)[i]) && FieldDenotes(FieldOrder()[i], Values(r)[i], r)
    ensures forall i :: 0 <= i < 8 ==> |Values(r)[i]| <= if i == 2 then 36 else 10
  {
    hide IsTheme;
    hide IsVerb;
    hide FromNat;
    hide Join;
    hide SizeDenotes;
    hide NormalizeTheme;
    hide NormalizeVerbs;
    hide Printable;
    hide Number;
    var vs := Values(r);
    ThemePrints(r);
    SizePrints(r);
    VerbsPrint(r.verbs);
    VerbsRoundTrip(r.verbs);
    DigitsPrintable(r.enemies);
    DigitsPrintable(r.treasures);
    DigitsPrintable(r.secrets);
    DigitsPrintable(r.difficulty);
    DigitsPrintable(r.seed);
    Lengths(r);
    forall i | 0 <= i < 8
      ensures Printable(vs[i]) && FieldDenotes(FieldOrder()[i], vs[i], r)
    {
    }
  }

  lemma TokensAreFields(r: Recipe)
    requires InRange(r)
    ensures |Tokens(r)| == 8 && |Values(r)| == 8 && |FieldOrder()| == 8
    ensures forall i :: 0 <= i < 8 ==> Tokens(r)[i] == Token(FieldOrder()[i], Values(r)[i])
  {
    hide Token;
    hide FromNat;
    hide Join;
  }

  /** Every printed token denotes the recipe it was printed from. */
  lemma TokensPrinted(r: Recipe)
    requires Normal(r)
    ensures var ts := Tokens(r);
      && |ts| == 8
      && (forall i :: 0 <= i < 8 ==> '|' !in ts[i] && ts[i] != "" && Trimmed(ts[i]))
      && (forall i :: 0 <= i < 8 ==> |ts[i]| <= if i == 2 then 47 else 21)
      && TokensDenote(ts, r)
  {
    hide Token;
    hide Tokens;
    hide Values;
    hide FieldOrder;
    hide KeyOf;
    hide ValueOf;
    hide FieldDenotes;
    hide IsField;
    hide InRange;
    hide Printable;
    hide IsVerb;
    hide IsTheme;
    hide Trimmed;
    hide LowerWord;
    assert InRange(r);
    var ts, order, values := Tokens(r), FieldOrder(), Values(r);
    FieldNames();
    ValuesPrint(r);
    TokensAreFields(r);
    forall i | 0 <= i < 8
      ensures '|' !in ts[i] && '=' in ts[i] && KeyOf(ts[i]) == order[i] && TokenDenotes(ts[i], r)
      ensures ts[i] != "" && Trimmed(ts[i]) && |ts[i]| == |order[i]| + 1 + |values[i]|
    {
      TokenParts(order[i], values[i]);
      TokenTrimmed(order[i], values[i]);
    }
    forall f | IsField(f)
      ensures exists i :: 0 <= i < |ts| && KeyOf(ts[i]) == f
    {
      assert f in order;
      var i :| 0 <= i < 8 && order[i] == f;
      assert KeyOf(ts[i]) == f;
    }
    SizesByKey(order);
  }

  lemma SizesByKey(order: seq<string>)
    requires order == FieldOrder()
    ensures |order| == 8 && |order[2]| == 5
  {
  }

  lemma TokenTrimmed(key: string, value: string)
    requires LowerWord(key) && Printable(value)
    ensures Trimmed(Token(key, value)) && Token(key, value) != ""
  {
    var t := Token(key, value);
    assert t[0] == key[0] && t[|t| - 1] == value[|value| - 1];
  }

  lemma ThemePrints(r: Recipe)
    requires Normal(r)
    ensures Printable(r.theme) && NormalizeTheme(r.theme) == Ok(r.theme) && |r.theme| <= 8
  {
    ThemeIsWord(r.theme);
    WordIsPlain(r.theme);
  }

  lemma Lengths(r: Recipe)
    requires InRange(r)
    ensures |FromNat(r.enemies)| <= 10 && |FromNat(r.treasures)| <= 10 && |FromNat(r.secrets)| <= 10
    ensures |FromNat(r.difficulty)| <= 10 && |FromNat(r.seed)| <= 10
  {
    assert Power10(10) == 10_000_000_000;
    FromNatLength(r.enemies, 10, 10_000_000_000);
    FromNatLength(r.treasures, 10, 10_000_000_000);
    FromNatLength(r.secrets, 10, 10_000_000_000);
    FromNatLength(r.difficulty, 10, 10_000_000_000);
    FromNatLength(r.seed, 10, 10_000_000_000);
  }

  lemma PrintedCode(v: Recipe)
    requires Normal(v)
    ensures var code := Join([CODE_PREFIX] + Tokens(v), '|');
      |code| <= MAX_LENGTH && Denotes(code, v)
  {
    hide IsTheme;
    hide IsVerb;
    hide TokensDenote;
    hide Trimmed;
    hide Join;
    hide Split;
    hide Strip;
    hide Tokens;
    hide InRange;
    assert InRange(v);
    TokensPrinted(v);
    var ts := Tokens(v);
    var parts := [CODE_PREFIX] + ts;
    var code := Join(parts, '|');
    PrefixIsPlain();
    forall i | 0 <= i < |parts|
      ensures '|' !in parts[i] && parts[i] != "" && Trimmed(parts[i])
    {
      if i > 0 {
        assert parts[i] == ts[i - 1];
      }
    }
    SplitJoin(parts, '|');
    JoinTrimmed(parts, '|');
    JoinOneLong(parts, '|', 3, 21, 26);
    assert "" + code + "" == code;
    StripIs(code, "", code, "");
    assert parts[1..] == ts;
  }

  lemma PrefixIsPlain()
    ensures '|' !in CODE_PREFIX && Trimmed(CODE_PREFIX) && Upper(CODE_PREFIX) == CODE_PREFIX && |CODE_PREFIX| == 3
  {
  }

  /** Printing then parsing a valid recipe gives its normal form, within the length limit. */
  lemma RoundTrip(r: Recipe)
    requires Validate(r).Ok?
    ensures Encode(r).Ok? && |Encode(r).value| <= MAX_LENGTH
    ensures Parsed(Encode(r).value) == Validate(r)
  {
    hide Validate;
    hide Tokens;
    hide Join;
    hide Parsed;
    hide Denotes;
    var v := Validate(r).value;
    ValidateNormalises(r);
    PrintedCode(v);
    ParseExactly(Encode(r).value, v);
  }

  /** The canonical spelling of a code. */
  function Canonicalize(raw: string): Result<string> {
    var r := Parsed(raw);
    if r.Err? then Err(r.fault) else Encode(r.value)
  }

  lemma ParsedIsNormal(raw: string)
    requires Parsed(raw).Ok?
    ensures Normal(Parsed(raw).value)
  {
    var fields := FieldsOf(Split(Strip(raw), '|')[1..]);
    ReadIsNormal(fields.value);
    FieldsNormal(fields.value, Parsed(raw).value);
  }

  /** Every accepted code has a canonical spelling, which means the same recipe and is
      its own canonical spelling. */
  lemma CanonicalIdempotent(raw: string)
    requires Parsed(raw).Ok?
    ensures Canonicalize(raw).Ok?
    ensures Parsed(Canonicalize(raw).value) == Parsed(raw)
    ensures Canonicalize(Canonicalize(raw).value) == Canonicalize(raw)
  {
    hide Validate;
    hide Parsed;
    hide Encode;
    ParsedIsNormal(raw);
    var r := Parsed(raw).value;
    ValidateNormalises(r);
    RoundTrip(r);
  }

  predicate IsNumeric(key: string) {
    IsField(key) && key != "theme" && key != "size" && key != "verbs"
  }

  predicate Zeros(s: string) {
    forall i :: 0 <= i < |s| ==> s[i] == '0'
  }

  /** Two spellings of one field: equal up to letter case, or, for a number, with more
      leading zeros. */
  ghost predicate SameMeaning(t: string, u: string) {
    && '=' in t && '=' in u && KeyOf(t) == KeyOf(u)
    && (|| Lower(ValueOf(t)) == Lower(ValueOf(u))
        || (IsNumeric(KeyOf(t)) && exists z :: Zeros(z) && ValueOf(u) == z + ValueOf(t)))
  }

  lemma {:induction false} CleanLowered(parts: seq<string>)
    ensures CleanVerbs(LowerAll(parts)) == CleanVerbs(parts)
  {
    hide Strip;
    hide Lower;
    if parts != [] {
      CleanLowered(parts[1..]);
      LowerStrip(parts[0]);
      LowerLower(Strip(parts[0]));
      assert LowerAll(parts)[1..] == LowerAll(parts[1..]);
      assert LowerAll(parts)[0] == Lower(parts[0]);
    }
  }

  /** Letter case carries no meaning in any field. */
  lemma ValueCase(key: string, v: string, w: string, r: Recipe)
    requires Lower(v) == Lower(w) && FieldDenotes(key, v, r)
    ensures FieldDenotes(key, w, r)
  {
    hide Strip;
    hide Lower;
    hide Split;
    hide CleanVerbs;
    hide IsTheme;
    hide IsVerb;
    if key == "theme" {
      LowerStrip(v);
      LowerStrip(w);
      assert Lower(Strip(v)) == Lower(Strip(w));
    } else if key == "size" {
    } else if key == "verbs" {
      LowerSplit(v, ',');
      LowerSplit(w, ',');
      CleanLowered(Split(v, ','));
      CleanLowered(Split(w, ','));
    } else {
      DigitsHaveNoCase(v, w);
    }
  }

  lemma SameMeaningDenotes(t: string, u: string, r: Recipe)
    requires SameMeaning(t, u) && TokenDenotes(t, r)
    ensures TokenDenotes(u, r)
  {
    hide KeyOf;
    hide ValueOf;
    var v, w := ValueOf(t), ValueOf(u);
    if Lower(v) == Lower(w) {
      ValueCase(KeyOf(t), v, w, r);
    } else {
      var z :| Zeros(z) && w == z + v;
      LeadingZeros(z, v);
    }
  }

  ghost predicate IsPermutation(perm: seq<nat>, n: nat) {
    && |perm| == n
    && (forall i :: 0 <= i < n ==> perm[i] < n)
    && (forall i, j :: 0 <= i < j < n ==> perm[i] != perm[j])
    && forall k: nat :: k < n ==> k in perm
  }

  lemma ReorderedTokens(tokens: seq<string>, others: seq<string>, perm: seq<nat>, r: Recipe)
    requires TokensDenote(tokens, r)
    requires |others| == |tokens| && IsPermutation(perm, |tokens|)
    requires forall i :: 0 <= i < |tokens| ==> SameMeaning(tokens[perm[i]], others[i])
    ensures TokensDenote(others, r)
  {
    hide KeyOf;
    hide ValueOf;
    hide FieldDenotes;
    hide IsField;
    hide InRange;
    forall i | 0 <= i < |others|
      ensures '=' in others[i] && IsField(KeyOf(others[i])) && TokenDenotes(others[i], r) && KeyOf(others[i]) == KeyOf(tokens[perm[i]])
    {
      assert SameMeaning(tokens[perm[i]], others[i]);
      assert TokenDenotes(tokens[perm[i]], r);
      SameMeaningDenotes(tokens[perm[i]], others[i], r);
    }
    forall f | IsField(f)
      ensures exists i :: 0 <= i < |others| && KeyOf(others[i]) == f
    {
      var k: nat :| k < |tokens| && KeyOf(tokens[k]) == f;
      assert k in perm;
      var i :| 0 <= i < |perm| && perm[i] == k;
      assert KeyOf(others[i]) == f;
    }
    forall i, j | 0 <= i < j < |others|
      ensures KeyOf(others[i]) != KeyOf(others[j])
    {
      assert perm[i] < perm[j] || perm[j] < perm[i];
    }
  }

  /** Any rearrangement and respelling of an accepted code's fields that still fits the
      length limit parses to the same recipe. */
  lemma RespelledCode(raw: string, other: string, perm: seq<nat>, r: Recipe)
    requires Parsed(raw) == Ok(r)
    requires var tokens, others := Split(Strip(raw), '|')[1..], Split(Strip(other), '|')[1..];
      && |others| == |tokens| && IsPermutation(perm, |tokens|)
      && forall i :: 0 <= i < |tokens| ==> SameMeaning(tokens[perm[i]], others[i])
    requires Strip(other) != "" && |Strip(other)| <= MAX_LENGTH
    requires Upper(Split(Strip(other), '|')[0]) == CODE_PREFIX
    ensures Parsed(other) == Ok(r)
  {
    hide SameMeaning;
    hide TokensDenote;
    hide Parsed;
    hide IsPermutation;
    ParseExactly(raw, r);
    ReorderedTokens(Split(Strip(raw), '|')[1..], Split(Strip(other), '|')[1..], perm, r);
    ParseExactly(other, r);
  }

  lemma LoweredToken(t: string)
    requires '=' in t
    ensures SameMeaning(t, Lower(t)) && SameMeaning(Lower(t), t)
  {
    hide Strip;
    hide Lower;
    LowerFirstIndex(t, '=');
    var k := FirstIndex(t, '=');
    LowerSlices(t, k);
    LowerStrip(t[..k]);
    LowerLower(Strip(t[..k]));
    LowerStrip(t[k + 1..]);
    LowerLower(Strip(t[k + 1..]));
    assert Lower(t)[k] == '=' by { LowerChars(t[k]); }
  }

  lemma TokensLowered(tokens: seq<string>, r: Recipe)
    ensures TokensDenote(LowerAll(tokens), r) <==> TokensDenote(tokens, r)
  {
    hide SameMeaning;
    hide KeyOf;
    hide FieldDenotes;
    hide IsField;
    hide InRange;
    hide Lower;
    var lowered := LowerAll(tokens);
    var same := seq(|tokens|, (i: nat) => i);
    assert IsPermutation(same, |tokens|) by {
      forall k: nat | k < |tokens|
        ensures k in same
      {
        assert same[k] == k;
      }
    }
    forall i | 0 <= i < |tokens|
      ensures '=' in lowered[i] <==> '=' in tokens[i]
    {
      EqualsSign(tokens[i]);
    }
    if TokensDenote(tokens, r) || TokensDenote(lowered, r) {
      forall i | 0 <= i < |tokens|
        ensures SameMeaning(tokens[i], lowered[i]) && SameMeaning(lowered[i], tokens[i])
      {
        LoweredToken(tokens[i]);
      }
    }
    if TokensDenote(tokens, r) {
      ReorderedTokens(tokens, lowered, same, r);
    }
    if TokensDenote(lowered, r) {
      ReorderedTokens(lowered, tokens, same, r);
    }
  }

  lemma EqualsSign(t: string)
    ensures '=' in Lower(t) <==> '=' in t
  {
    LowerFirstIndex(t, '=');
    var k := FirstIndex(t, '=');
    if '=' in t {
      assert k < |t|;
    }
    if '=' in Lower(t) {
      assert k < |t|;
    }
  }

  /** Letter case never matters: a code and its lower-case form mean the same. */
  lemma LetterCase(raw: string, r: Recipe)
    ensures Parsed(Lower(raw)) == Ok(r) <==> Parsed(raw) == Ok(r)
  {
    hide Parsed;
    hide TokensDenote;
    hide Strip;
    hide Split;
    hide Lower;
    hide Upper;
    var code := Strip(raw);
    LowerStrip(raw);
    LowerSplit(code, '|');
    var parts := Split(code, '|');
    assert LowerAll(parts)[1..] == LowerAll(parts[1..]);
    TokensLowered(parts[1..], r);
    LowerLower(parts[0]);
    UpperByLower(parts[0], Lower(parts[0]));
    assert |Lower(code)| == |code|;
    ParseExactly(raw, r);
    ParseExactly(Lower(raw), r);
  }

  /** Space around a code never matters. */
  lemma SurroundingSpace(before: string, raw: string, after: string)
    requires AllSpace(before) && AllSpace(after)
    ensures Parsed(before + raw + after) == Parsed(raw)
  {
    StripPadded(before, raw, after);
  }

  /** Space around a key or a value respells the token. */
  lemma PaddedToken(key: string, value: string, a: string, b: string, c: string, d: string)
    requires '=' !in key && AllSpace(a) && AllSpace(b) && AllSpace(c) && AllSpace(d)
    ensures SameMeaning(Token(key, value), Token(a + key + b, c + value + d))
  {
    hide Strip;
    var t, u := Token(key, value), Token(a + key + b, c + value + d);
    TokenSplits(key, value);
    TokenSplits(a + key + b, c + value + d);
    StripPadded(a, key, b);
    StripPadded(c, value, d);
  }

  lemma TokenSplits(key: string, value: string)
    requires '=' !in key
    ensures var t := Token(key, value);
      '=' in t && t[..FirstIndex(t, '=')] == key && t[FirstIndex(t, '=') + 1..] == value
  {
    var t := Token(key, value);
    assert t[|key|] == '=' && forall i :: 0 <= i < |key| ==> t[i] == key[i];
  }
}
