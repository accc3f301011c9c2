/**
 * Navigation of the JSON metadata document (an object in the sense of
 * section 4 of RFC 8259) through jsmn's flattened token array: every token
 * is followed by its subtree; an object's `size` is its number of keys, and
 * a key token has `size == 1`, its value being its only child.
 */
module JsonMetadata {
  import opened Types

  /** jsmntype_t */
  datatype TokenType = Undefined | Object | Array | String | Primitive

  /** jsmntok_t: a type, the span [start, end) of its text and its number of direct children. */
  datatype Token = Token(typ: TokenType, start: int, end: int, size: nat)

  /** struct json_metadata: the document text and the token array, root first. */
  datatype Metadata = Metadata(js: string, toks: seq<Token>)

  /** What the model reads past the last token (undefined in the source): an empty UNDEFINED token. */
  const EmptyToken: Token := Token(Undefined, 0, 0, 0)

  function Tok(md: Metadata, i: nat): Token {
    if i < |md.toks| then md.toks[i] else EmptyToken
  }

  /** A token's text; jsmn's spans always lie inside the text, anything else reads as empty. */
  function Text(md: Metadata, i: nat): string {
    var t := Tok(md, i);
    if 0 <= t.start <= t.end <= |md.js| then md.js[t.start..t.end] else ""
  }

  /** A token's text cut to at most `n` characters, as snprintf copies it into a buffer. */
  function Clip(md: Metadata, i: nat, n: nat): string {
    var t := Tok(md, i);
    if 0 <= t.start <= t.end <= |md.js| then md.js[t.start..if t.end - t.start <= n then t.end else t.start + n]
    else ""
  }

  /** Clipping a token is truncating its text. */
  lemma ClipIsTruncate(md: Metadata, i: nat, n: nat)
    ensures Clip(md, i, n) == Truncate(Text(md, i), n)
  {
  }

  // ---------------------------------------------------------------------
  // slurp_object: the number of tokens a subtree occupies
  // ---------------------------------------------------------------------

  /** The subtree at `i`: the token itself plus the subtrees of its `size` children. */
  function Slurp(md: Metadata, i: nat): (n: nat)
    ensures n >= 1
    decreases if i < |md.toks| then |md.toks| - i else 0, 0
  {
    if i >= |md.toks| then 1 else 1 + Siblings(md, i + 1, md.toks[i].size)
  }

  /** The tokens taken by `k` consecutive sibling subtrees starting at `p`. */
  function Siblings(md: Metadata, p: nat, k: nat): (n: nat)
    ensures n >= k
    decreases if p < |md.toks| then |md.toks| - p else 0, k
  {
    if k == 0 then 0
    else
      var n := Slurp(md, p);
      n + Siblings(md, p + n, k - 1)
  }

  /** The positions of `k` consecutive sibling subtrees starting at `p`. */
  function ChildStarts(md: Metadata, p: nat, k: nat): (cs: seq<nat>)
    ensures |cs| == k
    ensures k > 0 ==> cs[0] == p
    decreases k
  {
    if k == 0 then [] else [p] + ChildStarts(md, p + Slurp(md, p), k - 1)
  }

  /** The positions of the direct children of token `t`: for an object, its keys. */
  function Children(md: Metadata, t: nat): seq<nat> {
    ChildStarts(md, t + 1, Tok(md, t).size)
  }

  /** The siblings follow one another: each starts where the previous subtree ends. */
  lemma {:induction false} ChildStartsAdjacent(md: Metadata, p: nat, k: nat, l: nat)
    requires l + 1 < k
    ensures ChildStarts(md, p, k)[l + 1] == ChildStarts(md, p, k)[l] + Slurp(md, ChildStarts(md, p, k)[l])
    decreases k
  {
    if l > 0 {
      ChildStartsAdjacent(md, p + Slurp(md, p), k - 1, l - 1);
    }
  }

  /**
   * slurp_object: a recursion whose loop adds up the children's subtrees
   * into a running count `res`, which starts at 1 for the token itself.
   */
  method SlurpObject(md: Metadata, t: nat) returns (res: nat)
    ensures res == Slurp(md, t)
    ensures res >= 1
    decreases if t < |md.toks| then |md.toks| - t else 0
  {
    res := 1;
    var size := Tok(md, t).size;
    var i := 0;
    while i < size
      invariant 0 <= i <= size
      invariant res >= 1
      invariant Slurp(md, t) == res + Siblings(md, t + res, size - i)
    {
      var n := SlurpObject(md, t + res);
      res := res + n;
      i := i + 1;
    }
  }

  // ---------------------------------------------------------------------
  // match_token and the property lookups
  // ---------------------------------------------------------------------

  /** match_token: a STRING token whose text is exactly `name`. */
  predicate MatchToken(md: Metadata, i: nat, name: string) {
    Tok(md, i).typ == String && Text(md, i) == name
  }

  /** The value after the first key among the siblings `cs[i..]` whose text is `name`. */
  function KeyFrom(md: Metadata, cs: seq<nat>, i: nat, name: string): Option<nat>
    requires i <= |cs|
    decreases |cs| - i
  {
    if i == |cs| then None
    else if MatchToken(md, cs[i], name) then Some(cs[i] + 1)
    else KeyFrom(md, cs, i + 1, name)
  }

  /**
   * find_object_property: the token after the first key of `t` equal to
   * `name`, whole key/value subtrees being skipped; None when no key matches.
   */
  function FindProp(md: Metadata, t: nat, name: string): Option<nat> {
    KeyFrom(md, Children(md, t), 0, name)
  }

  /**
   * The lookup's answer: the value token right after the first matching key,
   * or None exactly when no key matches.
   */
  lemma {:induction false} KeyFromMeaning(md: Metadata, cs: seq<nat>, i: nat, name: string)
    requires i <= |cs|
    ensures KeyFrom(md, cs, i, name).None? <==> forall l :: i <= l < |cs| ==> !MatchToken(md, cs[l], name)
    ensures KeyFrom(md, cs, i, name).Some? ==>
              exists m :: i <= m < |cs| && KeyFrom(md, cs, i, name).value == cs[m] + 1 && MatchToken(md, cs[m], name)
                          && forall l :: i <= l < m ==> !MatchToken(md, cs[l], name)
    decreases |cs| - i
  {
    if i < |cs| && !MatchToken(md, cs[i], name) {
      KeyFromMeaning(md, cs, i + 1, name);
    }
  }

  /** The loop of find_object_property, advancing its offset `j` by whole subtrees. */
  method FindObjectProperty(md: Metadata, t: nat, name: string) returns (r: Option<nat>)
    ensures r == FindProp(md, t, name)
  {
    var size := Tok(md, t).size;
    ghost var cs := Children(md, t);
    var j := 0;
    var i := 0;
    while i < size
      invariant 0 <= i <= size
      invariant i < size ==> cs[i] == t + 1 + j
      invariant KeyFrom(md, cs, 0, name) == KeyFrom(md, cs, i, name)
    {
      var tok := t + 1 + j;
      if MatchToken(md, tok, name) {
        return Some(tok + 1);
      }
      var n := SlurpObject(md, tok);
      if i + 1 < size {
        ChildStartsAdjacent(md, t + 1, size, i);
      }
      j := j + n;
      i := i + 1;
    }
    return None;
  }

  /** get_object_property: the text of the property, cut to `size - 2` characters by snprintf. */
  method GetObjectProperty(md: Metadata, t: nat, name: string, size: nat) returns (r: Option<string>)
    requires size >= 2
    ensures r.None? <==> FindProp(md, t, name).None?
    ensures r.Some? ==> r.value == Clip(md, FindProp(md, t, name).value, size - 2)
  {
    var tok := FindObjectProperty(md, t, name);
    if tok.None? {
      return None;
    }
    return Some(Clip(md, tok.value, size - 2));
  }

  // ---------------------------------------------------------------------
  // Variables of the document
  // ---------------------------------------------------------------------

  /** A variable object whose "name" property exists and matches `varname`. */
  predicate VariableNamed(md: Metadata, v: nat, varname: string) {
    var name := FindProp(md, v, "name");
    name.Some? && MatchToken(md, name.value, varname)
  }

  /** The first of the elements `cs[i..]` of "variables" that is named `varname`. */
  function NamedFrom(md: Metadata, cs: seq<nat>, i: nat, varname: string): Option<nat>
    requires i <= |cs|
    decreases |cs| - i
  {
    if i == |cs| then None
    else if VariableNamed(md, cs[i], varname) then Some(cs[i])
    else NamedFrom(md, cs, i + 1, varname)
  }

  /** The first element of the array `vars` that is a variable named `varname`. */
  function NamedIn(md: Metadata, vars: nat, varname: string): Option<nat> {
    NamedFrom(md, Children(md, vars), 0, varname)
  }

  /** The variable found is an element named `varname`, and none before it is. */
  lemma {:induction false} NamedFromMeaning(md: Metadata, cs: seq<nat>, i: nat, varname: string)
    requires i <= |cs|
    ensures NamedFrom(md, cs, i, varname).None? <==> forall l :: i <= l < |cs| ==> !VariableNamed(md, cs[l], varname)
    ensures NamedFrom(md, cs, i, varname).Some? ==>
              exists m :: i <= m < |cs| && NamedFrom(md, cs, i, varname).value == cs[m] && VariableNamed(md, cs[m], varname)
                          && forall l :: i <= l < m ==> !VariableNamed(md, cs[l], varname)
    decreases |cs| - i
  {
    if i < |cs| && !VariableNamed(md, cs[i], varname) {
      NamedFromMeaning(md, cs, i + 1, varname);
    }
  }

  /**
   * The first element of the root's "variables" array named `varname`;
   * None if the root is not an OBJECT, has no "variables" key or no such
   * element.
   */
  function FindVariable(md: Metadata, varname: string): Option<nat>
  {
    if Tok(md, 0).typ != Object then None
    else match FindProp(md, 0, "variables")
      case None => None
      case Some(vars) => NamedIn(md, vars, varname)
  }

  /** find_variable_property: `property` of the first variable named `varname`. */
  function FindVariableProp(md: Metadata, varname: string, property: string): Option<nat> {
    match FindVariable(md, varname)
    case None => None
    case Some(v) => FindProp(md, v, property)
  }

  /** The loop of find_variable_property over the elements of "variables". */
  method FindNamed(md: Metadata, vars: nat, varname: string) returns (r: Option<nat>)
    ensures r == NamedIn(md, vars, varname)
  {
    var size := Tok(md, vars).size;
    ghost var cs := Children(md, vars);
    var j := 0;
    var i := 0;
    while i < size
      invariant 0 <= i <= size
      invariant i < size ==> cs[i] == vars + 1 + j
      invariant NamedFrom(md, cs, 0, varname) == NamedFrom(md, cs, i, varname)
    {
      var variable := vars + 1 + j;
      var name := FindObjectProperty(md, variable, "name");
      if name.Some? && MatchToken(md, name.value, varname) {
        return Some(variable);
      }
      var n := SlurpObject(md, variable);
      if i + 1 < size {
        ChildStartsAdjacent(md, vars + 1, size, i);
      }
      j := j + n;
      i := i + 1;
    }
    return None;
  }

  /** find_variable_property */
  method FindVariableProperty(md: Metadata, varname: string, property: string) returns (r: Option<nat>)
    ensures r == FindVariableProp(md, varname, property)
  {
    if Tok(md, 0).typ != Object {
      return None;
    }
    var variables := FindObjectProperty(md, 0, "variables");
    if variables.None? {
      return None;
    }
    var variable := FindNamed(md, variables.value, varname);
    if variable.None? {
      return None;
    }
    r := FindObjectProperty(md, variable.value, property);
  }

  /** What copy_variable_property yields: nothing for an absent property or an empty text. */
  function PropertyText(md: Metadata, varname: string, property: string, maxsize: nat): (r: Option<string>)
    requires maxsize >= 2
    ensures r.None? <==> FindVariableProp(md, varname, property).None?
                         || Tok(md, FindVariableProp(md, varname, property).value).end
                            == Tok(md, FindVariableProp(md, varname, property).value).start
    ensures r.Some? ==> |r.value| <= maxsize - 2 && r.value <= Text(md, FindVariableProp(md, varname, property).value)
  {
    match FindVariableProp(md, varname, property)
    case None => None
    case Some(p) =>
      if Tok(md, p).end - Tok(md, p).start == 0 then None
      else Some(Clip(md, p, maxsize - 2))
  }

  /** copy_variable_property */
  method CopyVariableProperty(md: Metadata, varname: string, property: string, maxsize: nat) returns (r: Option<string>)
    requires maxsize >= 2
    ensures r == PropertyText(md, varname, property, maxsize)
  {
    var tok := FindVariableProperty(md, varname, property);
    if tok.None? {
      return None;
    }
    var t := tok.value;
    if Tok(md, t).end - Tok(md, t).start == 0 {
      return None;
    }
    return Some(Clip(md, t, maxsize - 2));
  }

  // ---------------------------------------------------------------------
  // missing_double_idx and column_type
  // ---------------------------------------------------------------------

  /** strtod of a value token, after snprintf into a 1024-byte buffer. */
  function ParseEntry(md: Metadata, c: nat, strtod: string -> Option<real>): Option<real> {
    strtod(Clip(md, c, 1022))
  }

  /** The parsed entries of an array whose elements start at `cs`. */
  function Entries(md: Metadata, cs: seq<nat>, strtod: string -> Option<real>): (e: seq<Option<real>>)
    ensures |e| == |cs|
    ensures forall l :: 0 <= l < |cs| ==> e[l] == ParseEntry(md, cs[l], strtod)
  {
    seq(|cs|, l requires 0 <= l < |cs| => ParseEntry(md, cs[l], strtod))
  }

  /**
   * The scan of missing_double_idx from entry `i`: the 1-based index of the
   * first entry equal to `v`, 0 if none; an entry that is not a number
   * before a match is fatal.
   */
  function IndexFrom(e: seq<Option<real>>, i: nat, v: real): Result<nat>
    requires i <= |e|
    decreases |e| - i
  {
    if i == |e| then Ok(0)
    else match e[i]
      case None => Err(NotANumber)
      case Some(x) => if x == v then Ok(i + 1) else IndexFrom(e, i + 1, v)
  }

  /**
   * The scan's answer: a positive index names the first entry equal to `v`,
   * all entries before it being numbers; 0 means every entry is a number
   * other than `v`; a fault means some entry before any match is not a number.
   */
  lemma {:induction false} IndexFromMeaning(e: seq<Option<real>>, i: nat, v: real)
    requires i <= |e|
    ensures var r := IndexFrom(e, i, v);
            (r.Ok? && r.value > 0 ==>
              i < r.value <= |e| && e[r.value - 1] == Some(v)
              && forall l :: i <= l < r.value - 1 ==> e[l].Some? && e[l] != Some(v))
            && (r == Ok(0) <==> forall l :: i <= l < |e| ==> e[l].Some? && e[l] != Some(v))
            && (r.Err? ==> r.fault == NotANumber && exists l :: i <= l < |e| && e[l].None?)
    decreases |e| - i
  {
    if i < |e| && e[i].Some? && e[i].value != v {
      IndexFromMeaning(e, i + 1, v);
    }
  }

  /** What missing_double_idx yields: 0 without "missing" or "values", else the scan of the values. */
  function MissingIdx(md: Metadata, varname: string, v: real, strtod: string -> Option<real>): Result<nat> {
    match FindVariableProp(md, varname, "missing")
    case None => Ok(0)
    case Some(missing) =>
      match FindProp(md, missing, "values")
      case None => Ok(0)
      case Some(values) => IndexFrom(Entries(md, Children(md, values), strtod), 0, v)
  }

  /** The loop of missing_double_idx over the elements of "values". */
  method ScanValues(md: Metadata, vals: nat, v: real, strtod: string -> Option<real>) returns (r: Result<nat>)
    ensures r == IndexFrom(Entries(md, Children(md, vals), strtod), 0, v)
  {
    var size := Tok(md, vals).size;
    ghost var cs := Children(md, vals);
    ghost var e := Entries(md, cs, strtod);
    var j := 1;
    var i := 0;
    while i < size
      invariant 0 <= i <= size
      invariant j >= 1
      invariant i < size ==> cs[i] == vals + j
      invariant IndexFrom(e, 0, v) == IndexFrom(e, i, v)
    {
      var value := vals + j;
      var x := ParseEntry(md, value, strtod);
      assert x == e[i];
      if x.None? {
        return Err(NotANumber);
      }
      if x.value == v {
        return Ok(i + 1);
      }
      var n := SlurpObject(md, value);
      if i + 1 < size {
        ChildStartsAdjacent(md, vals + 1, size, i);
      }
      j := j + n;
      i := i + 1;
    }
    return Ok(0);
  }

  /** missing_double_idx */
  method MissingDoubleIdx(md: Metadata, varname: string, v: real, strtod: string -> Option<real>) returns (r: Result<nat>)
    ensures r == MissingIdx(md, varname, v, strtod)
  {
    var missing := FindVariableProperty(md, varname, "missing");
    if missing.None? {
      return Ok(0);
    }
    var values := FindObjectProperty(md, missing.value, "values");
    if values.None? {
      return Ok(0);
    }
    r := ScanValues(md, values.value, v, strtod);
  }

  /** The variable's "type" property exists and its text is `name`. */
  predicate TypeIs(md: Metadata, varname: string, name: string) {
    var typ := FindVariableProp(md, varname, "type");
    typ.Some? && MatchToken(md, typ.value, name)
  }

  /** column_type: NUMERIC is DOUBLE, STRING is STRING; an absent or any other type is fatal. */
  function ColumnType(md: Metadata, varname: string): (r: Result<ValueType>)
    ensures r == Ok(DoubleType) <==> TypeIs(md, varname, "NUMERIC")
    ensures r == Ok(StringType) <==> TypeIs(md, varname, "STRING")
    ensures r.Ok? ==> r.value == DoubleType || r.value == StringType
    ensures r == Err(NoVariableType) <==> FindVariableProp(md, varname, "type").None?
  {
    match FindVariableProp(md, varname, "type")
    case None => Err(NoVariableType)
    case Some(typ) =>
      if MatchToken(md, typ, "NUMERIC") then Ok(DoubleType)
      else if MatchToken(md, typ, "STRING") then Ok(StringType)
      else Err(UnknownVariableType)
  }
}
