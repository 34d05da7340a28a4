/** The chain registry's normalisers: duel keys, chain names, chain lists and lifecycle records. */
module Normalisers {
  import opened Wrappers

  // ---------------------------------------------------------------------------------------------
  // Text

  /** The characters that `trim` and the pattern class for white space take. */
  predicate IsSpace(c: char) {
    || c == ' ' || '\U{0009}' <= c <= '\U{000D}' || c == '\U{00A0}' || c == '\U{1680}'
    || '\U{2000}' <= c <= '\U{200A}' || c == '\U{2028}' || c == '\U{2029}' || c == '\U{202F}'
    || c == '\U{205F}' || c == '\U{3000}' || c == '\U{FEFF}'
  }

  function TrimStart(s: string): string {
    if s != "" && IsSpace(s[0]) then TrimStart(s[1..]) else s
  }

  function TrimEnd(s: string): string {
    if s != "" && IsSpace(s[|s| - 1]) then TrimEnd(s[..|s| - 1]) else s
  }

  function Trim(s: string): string { TrimEnd(TrimStart(s)) }

  function LowerChar(c: char): char { if 'A' <= c <= 'Z' then c + 'a' - 'A' else c }

  function Lower(s: string): (r: string)
    ensures |r| == |s| && forall i :: 0 <= i < |s| ==> r[i] == LowerChar(s[i])
  {
    seq(|s|, i requires 0 <= i < |s| => LowerChar(s[i]))
  }

  predicate IsHexDigit(c: char) { '0' <= c <= '9' || 'a' <= c <= 'f' }

  predicate IsHex64(s: string) { |s| == 64 && forall i :: 0 <= i < |s| ==> IsHexDigit(s[i]) }

  predicate HasPrefix(s: string) { |s| >= 2 && s[0] == '0' && s[1] == 'x' }

  const SPACES: string :=
    "\U{0009}\U{000A}\U{000B}\U{000C}\U{000D} \U{00A0}\U{1680}"
    + "\U{2000}\U{2001}\U{2002}\U{2003}\U{2004}\U{2005}\U{2006}\U{2007}\U{2008}\U{2009}\U{200A}"
    + "\U{2028}\U{2029}\U{202F}\U{205F}\U{3000}\U{FEFF}"

  /** Twenty-five characters are white space. */
  lemma SpacesAre(c: char)
    ensures IsSpace(c) <==> c in SPACES
  {
    var n := c as int;
    if 9 <= n <= 13 {
      assert SPACES[n - 9] == c;
    } else if 0x2000 <= n <= 0x200A {
      assert SPACES[n - 0x2000 + 8] == c;
    } else {
      assert SPACES[5] == ' ' && SPACES[6] == '\U{00A0}' && SPACES[7] == '\U{1680}';
      assert SPACES[19] == '\U{2028}' && SPACES[20] == '\U{2029}' && SPACES[21] == '\U{202F}';
      assert SPACES[22] == '\U{205F}' && SPACES[23] == '\U{3000}' && SPACES[24] == '\U{FEFF}';
    }
  }

  /** Lower case changes the twenty-six capital letters, each to its small one, and no other character. */
  lemma LowerCharExactly(c: char, k: nat)
    requires k < 26
    ensures
      var capitals, smalls := "ABCDEFGHIJKLMNOPQRSTUVWXYZ", "abcdefghijklmnopqrstuvwxyz";
      && LowerChar(capitals[k]) == smalls[k]
      && (c !in capitals ==> LowerChar(c) == c)
  {
    var capitals := "ABCDEFGHIJKLMNOPQRSTUVWXYZ";
    if 'A' <= c <= 'Z' {
      assert capitals[c as int - 'A' as int] == c;
    }
    assert capitals[k] as int == 'A' as int + k;
  }

  predicate AllSpaces(s: string) { forall i :: 0 <= i < |s| ==> IsSpace(s[i]) }

  /** The text without white space at either end, at the given place in the whole. */
  predicate IsCore(s: string, i: nat, j: nat) {
    && i <= j <= |s| && AllSpaces(s[..i]) && AllSpaces(s[j..])
    && (i < j ==> !IsSpace(s[i]) && !IsSpace(s[j - 1]))
  }

  lemma {:induction false} TrimStartSkips(s: string) returns (i: nat)
    ensures i <= |s| && TrimStart(s) == s[i..] && AllSpaces(s[..i]) && (i < |s| ==> !IsSpace(s[i]))
  {
    hide IsSpace;
    if s != "" && IsSpace(s[0]) {
      var k := TrimStartSkips(s[1..]);
      i := k + 1;
      assert s[1..][k..] == s[i..];
      forall j | 0 <= j < i
        ensures IsSpace(s[..i][j])
      {
        if j > 0 {
          assert s[..i][j] == s[1..][..k][j - 1];
        }
      }
    } else {
      i := 0;
      assert s[0..] == s;
    }
  }

  lemma {:induction false} TrimEndSkips(s: string) returns (j: nat)
    ensures j <= |s| && TrimEnd(s) == s[..j] && AllSpaces(s[j..]) && (j > 0 ==> !IsSpace(s[j - 1]))
  {
    hide IsSpace;
    if s != "" && IsSpace(s[|s| - 1]) {
      j := TrimEndSkips(s[..|s| - 1]);
      assert s[..|s| - 1][..j] == s[..j];
      forall k | 0 <= k < |s| - j
        ensures IsSpace(s[j..][k])
      {
        if k < |s| - 1 - j {
          assert s[j..][k] == s[..|s| - 1][j..][k];
        }
      }
    } else {
      j := |s|;
      assert s[..|s|] == s;
    }
  }

  /** Trimming takes white space off both ends and nothing else. */
  lemma TrimExactly(s: string)
    ensures exists i: nat, j: nat :: IsCore(s, i, j) && Trim(s) == s[i..j]
  {
    var i := TrimStartSkips(s);
    var rest := TrimStart(s);
    hide IsSpace, TrimStart, TrimEnd;
    var k := TrimEndSkips(rest);
    var j := i + k;
    assert rest[..k] == s[i..j] && rest[k..] == s[j..];
    if k > 0 {
      assert rest[k - 1] == s[j - 1];
    }
    assert IsCore(s, i, j);
  }

  // ---------------------------------------------------------------------------------------------
  // Duel keys

  /** The registry's normaliser. */
  function NormalizeDuelKey(value: Option<string>, prefix: bool): Option<string> {
    if value.None? then None
    else
      var trimmed := Lower(Trim(value.value));
      var normalized :=
        if HasPrefix(trimmed) && IsHex64(trimmed[2..]) then Some(trimmed[2..])
        else if IsHex64(trimmed) then Some(trimmed)
        else None;
      if normalized.None? then None else Some(if prefix then "0x" + normalized.value else normalized.value)
  }

  /** The keeper's normaliser. */
  function KeeperDuelKey(value: Option<string>): Option<string> {
    if value.None? || value.value == "" then None
    else
      var trimmed := Lower(Trim(value.value));
      var normalized := if HasPrefix(trimmed) then trimmed[2..] else trimmed;
      if IsHex64(normalized) then Some(normalized) else None
  }

  /** On every string, and on none at all, the two normalisers name the same duel key. */
  lemma KeeperAgreesWithRegistry(value: Option<string>)
    ensures KeeperDuelKey(value) == NormalizeDuelKey(value, false)
  {
    if value.Some? {
      var trimmed := Lower(Trim(value.value));
      if HasPrefix(trimmed) {
        PrefixIsNotHex(trimmed);
      }
    }
  }

  lemma PrefixIsNotHex(s: string)
    requires HasPrefix(s)
    ensures !IsHex64(s)
  {
    assert !IsHexDigit(s[1]);
  }

  lemma HexDigitsAre(c: char)
    ensures IsHexDigit(c) <==> c in "0123456789abcdef"
  {
    var digits := "0123456789abcdef";
    if '0' <= c <= '9' {
      assert digits[c as int - '0' as int] == c;
    } else if 'a' <= c <= 'f' {
      assert digits[c as int - 'a' as int + 10] == c;
    }
  }

  /** A value names a key exactly when the key is 64 hexadecimal digits and the value, trimmed and in lower case, is
      the key or the key after 0x. */
  lemma KeyReadsExactly(value: string, key: string)
    ensures NormalizeDuelKey(Some(value), false) == Some(key) <==>
      && |key| == 64 && (forall i :: 0 <= i < 64 ==> key[i] in "0123456789abcdef")
      && (Lower(Trim(value)) == key || Lower(Trim(value)) == "0x" + key)
  {
    var trimmed := Lower(Trim(value));
    hide Lower, Trim;
    if |key| == 64 {
      forall i | 0 <= i < 64
        ensures IsHexDigit(key[i]) <==> key[i] in "0123456789abcdef"
      {
        HexDigitsAre(key[i]);
      }
    }
    hide IsHexDigit;
    assert ("0x" + key)[2..] == key;
    if HasPrefix(trimmed) {
      PrefixIsNotHex(trimmed);
      assert trimmed == "0x" + trimmed[2..];
    }
    hide IsHex64;
  }

  lemma HexIsPlain(s: string)
    requires IsHex64(s)
    ensures Lower(Trim(s)) == s && Lower(Trim("0x" + s)) == "0x" + s && !HasPrefix(s)
  {
    assert forall i :: 0 <= i < |s| ==> IsHexDigit(s[i]) && !IsSpace(s[i]) && LowerChar(s[i]) == s[i];
    assert Lower(s) == s;
    assert IsHexDigit(s[1]);
    var longer := "0x" + s;
    assert longer[|longer| - 1] == s[63];
    assert Lower(longer) == longer;
  }

  lemma PlainKeyReads(hex: string, prefix: bool)
    requires IsHex64(hex)
    ensures NormalizeDuelKey(Some(hex), prefix) == Some(if prefix then "0x" + hex else hex)
  {
    HexIsPlain(hex);
    hide Lower, Trim, IsHex64;
  }

  lemma PrefixedKeyReads(hex: string, prefix: bool)
    requires IsHex64(hex)
    ensures NormalizeDuelKey(Some("0x" + hex), prefix) == Some(if prefix then "0x" + hex else hex)
  {
    HexIsPlain(hex);
    assert ("0x" + hex)[2..] == hex;
    assert HasPrefix("0x" + hex);
    hide Lower, Trim, IsHex64, HasPrefix;
    var trimmed := Lower(Trim("0x" + hex));
    assert trimmed == "0x" + hex;
  }

  lemma KeyIsPlain(value: Option<string>, prefix: bool)
    ensures
      var plain := NormalizeDuelKey(value, false);
      && (plain.Some? ==> IsHex64(plain.value))
      && NormalizeDuelKey(value, prefix) ==
         if plain.None? then None else Some(if prefix then "0x" + plain.value else plain.value)
  {
    hide Lower, Trim, IsHex64;
  }

  /** Normalising a normalised key, under either option, is normalising the original under that option. */
  lemma DuelKeyIdempotent(value: Option<string>, first: bool, second: bool)
    ensures NormalizeDuelKey(NormalizeDuelKey(value, first), second) == NormalizeDuelKey(value, second)
  {
    KeyIsPlain(value, first);
    KeyIsPlain(value, second);
    var plain := NormalizeDuelKey(value, false);
    if plain.Some? {
      PlainKeyReads(plain.value, second);
      PrefixedKeyReads(plain.value, second);
      hide NormalizeDuelKey, IsHex64;
    }
  }

  // ---------------------------------------------------------------------------------------------
  // Chain names

  datatype ChainKey = Solana | Bsc | Base | Avax

  /** The aliases of the deployments, as the lookup table holds them. */
  function EvmChainOfAlias(alias: string): Option<ChainKey> {
    if alias == "bsc" || alias == "bnb" then Some(Bsc)
    else if alias == "base" then Some(Base)
    else if alias == "avax" || alias == "avalanche" then Some(Avax)
    else None
  }

  /** What the lookup table reads of a deployment. */
  datatype Deployment = Deployment(chain: ChainKey, aliases: seq<string>)

  /** The order in which the deployments are listed: the test network before the main one. */
  const EVM_DEPLOYMENTS: seq<Deployment> := [
    Deployment(Bsc, ["bsc", "bnb"]), Deployment(Bsc, ["bsc", "bnb"]),
    Deployment(Base, ["base"]), Deployment(Base, ["base"]),
    Deployment(Avax, ["avax", "avalanche"]), Deployment(Avax, ["avax", "avalanche"])]

  predicate Spells(deployment: Deployment, count: nat, alias: string)
    requires count <= |deployment.aliases|
  {
    exists j :: 0 <= j < count && Lower(deployment.aliases[j]) == alias
  }

  /** The chain of the last deployment that an alias belongs to. */
  function LastChain(deployments: seq<Deployment>, alias: string): Option<ChainKey> {
    if deployments == [] then None
    else
      var last := deployments[|deployments| - 1];
      if Spells(last, |last.aliases|, alias) then Some(last.chain)
      else LastChain(deployments[..|deployments| - 1], alias)
  }

  function Lookup(table: map<string, ChainKey>, alias: string): Option<ChainKey> {
    if alias in table then Some(table[alias]) else None
  }

  method AddAliases(table: map<string, ChainKey>, deployment: Deployment) returns (r: map<string, ChainKey>)
    ensures forall alias ::
      Lookup(r, alias) ==
      if Spells(deployment, |deployment.aliases|, alias) then Some(deployment.chain) else Lookup(table, alias)
  {
    hide Lower;
    r := table;
    for j := 0 to |deployment.aliases|
      invariant forall alias ::
        Lookup(r, alias) == if Spells(deployment, j, alias) then Some(deployment.chain) else Lookup(table, alias)
    {
      SpellsOneMore(deployment, j);
      var earlier := r;
      r := r[Lower(deployment.aliases[j]) := deployment.chain];
      forall alias
        ensures
          Lookup(r, alias) ==
          if Spells(deployment, j + 1, alias) then Some(deployment.chain) else Lookup(table, alias)
      {
        assert Lookup(earlier, alias) ==
          if Spells(deployment, j, alias) then Some(deployment.chain) else Lookup(table, alias);
        hide Spells;
      }
    }
  }

  lemma SpellsOneMore(deployment: Deployment, j: nat)
    requires j < |deployment.aliases|
    ensures forall alias ::
      Spells(deployment, j + 1, alias) <==> Spells(deployment, j, alias) || Lower(deployment.aliases[j]) == alias
  {
    hide Lower;
    forall alias | Spells(deployment, j, alias) ensures Spells(deployment, j + 1, alias) {
      var k :| 0 <= k < j && Lower(deployment.aliases[k]) == alias;
      assert Lower(deployment.aliases[k]) == alias;
    }
    assert Spells(deployment, j + 1, Lower(deployment.aliases[j]));
  }

  method BuildAliasMap(deployments: seq<Deployment>) returns (table: map<string, ChainKey>)
    ensures forall alias :: Lookup(table, alias) == LastChain(deployments, alias)
  {
    hide Spells;
    table := map[];
    for i := 0 to |deployments|
      invariant forall alias :: Lookup(table, alias) == LastChain(deployments[..i], alias)
    {
      assert deployments[..i + 1][..i] == deployments[..i];
      table := AddAliases(table, deployments[i]);
    }
    assert deployments[..|deployments|] == deployments;
  }

  lemma SpellsOne(chain: ChainKey, name: string, alias: string)
    requires Lower(name) == name
    ensures Spells(Deployment(chain, [name]), 1, alias) <==> alias == name
  {
    hide Lower;
    var d := Deployment(chain, [name]);
    assert Lower(d.aliases[0]) == name;
  }

  lemma SpellsTwo(chain: ChainKey, first: string, second: string, alias: string)
    requires Lower(first) == first && Lower(second) == second
    ensures Spells(Deployment(chain, [first, second]), 2, alias) <==> alias == first || alias == second
  {
    hide Lower;
    var d := Deployment(chain, [first, second]);
    assert Lower(d.aliases[0]) == first && Lower(d.aliases[1]) == second;
  }

  /** The table built from the deployments is the lookup the normalisers use. */
  lemma AliasesOfDeployments(alias: string)
    ensures LastChain(EVM_DEPLOYMENTS, alias) == EvmChainOfAlias(alias)
  {
    AliasesAreLower();
    SpellsTwo(Bsc, "bsc", "bnb", alias);
    SpellsOne(Base, "base", alias);
    SpellsTwo(Avax, "avax", "avalanche", alias);
    hide Spells, Lower;
    var d := EVM_DEPLOYMENTS;
    assert LastChain(d[..0], alias) == None;
    assert forall k: nat :: k < 5 ==> d[..k + 1][..k] == d[..k];
    assert d[..6] == d && d[..6][..5] == d[..5];
    var bsc := if alias == "bsc" || alias == "bnb" then Some(Bsc) else None;
    assert LastChain(d[..1], alias) == bsc;
    assert LastChain(d[..2], alias) == bsc;
    var base := if alias == "base" then Some(Base) else bsc;
    assert LastChain(d[..3], alias) == base;
    assert LastChain(d[..4], alias) == base;
    assert LastChain(d[..5], alias) == if alias == "avax" || alias == "avalanche" then Some(Avax) else base;
  }

  lemma AliasesAreLower()
    ensures Lower("bsc") == "bsc" && Lower("bnb") == "bnb" && Lower("base") == "base"
    ensures Lower("avax") == "avax" && Lower("avalanche") == "avalanche"
  {
  }

  function ChainName(chain: ChainKey): string {
    match chain
    case Solana => "solana"
    case Bsc => "bsc"
    case Base => "base"
    case Avax => "avax"
  }

  function NormalizeChainKey(value: Option<string>, fallback: ChainKey): ChainKey {
    var normalized := if value.Some? then Lower(Trim(value.value)) else "";
    if normalized == "" then fallback
    else if normalized == "sol" || normalized == "solana" then Solana
    else EvmChainOfAlias(normalized).GetOr(fallback)
  }

  lemma NameIsPlain(chain: ChainKey)
    ensures Lower(Trim(ChainName(chain))) == ChainName(chain)
  {
    var name := ChainName(chain);
    assert forall i :: 0 <= i < |name| ==> !IsSpace(name[i]) && LowerChar(name[i]) == name[i];
    assert Lower(name) == name;
  }

  lemma NameNormalisesToChain(chain: ChainKey, fallback: ChainKey)
    ensures NormalizeChainKey(Some(ChainName(chain)), fallback) == chain
  {
    NameIsPlain(chain);
  }

  /** What a chain name reads as: two names for Solana, five aliases for the others, and the fallback for the rest. */
  lemma ChainKeyExactly(value: string, fallback: ChainKey)
    ensures
      var name, chain := Lower(Trim(value)), NormalizeChainKey(Some(value), fallback);
      && (name in ["sol", "solana"] ==> chain == Solana)
      && (name in ["bsc", "bnb"] ==> chain == Bsc)
      && (name in ["base"] ==> chain == Base)
      && (name in ["avax", "avalanche"] ==> chain == Avax)
      && (name !in ["sol", "solana", "bsc", "bnb", "base", "avax", "avalanche"] ==> chain == fallback)
    ensures NormalizeChainKey(None, fallback) == fallback
  {
    hide Lower, Trim;
  }

  // ---------------------------------------------------------------------------------------------
  // Chain lists

  predicate IsSeparator(c: char) { c == ',' || IsSpace(c) }

  lemma SeparatorsAre(c: char)
    ensures IsSeparator(c) <==> c == ',' || c in SPACES
  {
    SpacesAre(c);
    hide IsSpace;
  }

  function SkipSeparators(s: string): (r: string)
    ensures |r| <= |s| && (r != "" ==> !IsSeparator(r[0]))
  {
    if s != "" && IsSeparator(s[0]) then SkipSeparators(s[1..]) else s
  }

  function WordLength(s: string): (n: nat)
    ensures n <= |s|
    ensures s != "" && !IsSeparator(s[0]) ==> n > 0
    ensures forall i :: 0 <= i < n ==> !IsSeparator(s[i])
    ensures n < |s| ==> IsSeparator(s[n])
  {
    if s == "" || IsSeparator(s[0]) then 0 else 1 + WordLength(s[1..])
  }

  /** The pieces between separators, empty ones dropped. */
  function Tokens(s: string): seq<string>
    decreases |s|
  {
    var rest := SkipSeparators(s);
    if rest == "" then [] else [rest[..WordLength(rest)]] + Tokens(rest[WordLength(rest)..])
  }

  /** The EVM chains that the tokens name, each where it is first named. */
  function Named(tokens: seq<string>): seq<ChainKey> {
    if tokens == [] then []
    else
      var earlier := Named(tokens[..|tokens| - 1]);
      var chain := NormalizeChainKey(Some(tokens[|tokens| - 1]), Solana);
      if chain != Solana && chain !in earlier then earlier + [chain] else earlier
  }

  function ChainList(value: Option<string>, fallback: seq<ChainKey>): seq<ChainKey> {
    var chains := Named(Tokens(value.GetOr("")));
    if chains == [] then fallback else chains
  }

  method ParseChainList(value: Option<string>, fallback: seq<ChainKey>) returns (chains: seq<ChainKey>)
    ensures chains == ChainList(value, fallback)
  {
    var tokens := Tokens(value.GetOr(""));
    if |tokens| == 0 {
      return fallback;
    }
    chains := [];
    for i := 0 to |tokens|
      invariant chains == Named(tokens[..i])
    {
      assert tokens[..i + 1][..i] == tokens[..i];
      var normalized := NormalizeChainKey(Some(tokens[i]), Solana);
      if normalized != Solana && normalized !in chains {
        chains := chains + [normalized];
      }
    }
    assert tokens[..|tokens|] == tokens;
    if |chains| == 0 {
      chains := fallback;
    }
  }

  predicate Distinct(chains: seq<ChainKey>) { forall i, j :: 0 <= i < j < |chains| ==> chains[i] != chains[j] }

  predicate EvmOnly(chains: seq<ChainKey>) { forall i :: 0 <= i < |chains| ==> chains[i] != Solana }

  lemma {:induction false} NamedIsDistinct(tokens: seq<string>)
    ensures Distinct(Named(tokens)) && EvmOnly(Named(tokens))
  {
    if tokens != [] {
      NamedIsDistinct(tokens[..|tokens| - 1]);
    }
  }

  predicate NamesAt(tokens: seq<string>, i: nat, chain: ChainKey)
    requires i < |tokens|
  {
    NormalizeChainKey(Some(tokens[i]), Solana) == chain
  }

  /** A chain is listed exactly when some token names it. */
  lemma {:induction false} NamedExactly(tokens: seq<string>, chain: ChainKey)
    requires chain != Solana
    ensures chain in Named(tokens) <==> exists i: nat :: i < |tokens| && NamesAt(tokens, i, chain)
  {
    hide NamesAt, NormalizeChainKey;
    if tokens != [] {
      hide Named;
      var n := |tokens| - 1;
      NamedExactly(tokens[..n], chain);
      NamedLast(tokens, chain);
      forall i: nat | i < n ensures NamesAt(tokens[..n], i, chain) == NamesAt(tokens, i, chain) {
        NamesAtPrefix(tokens, n, i, chain);
      }
      if chain in Named(tokens[..n]) {
        var i: nat :| i < n && NamesAt(tokens[..n], i, chain);
        assert NamesAt(tokens, i, chain);
      }
      if i: nat :| i < |tokens| && NamesAt(tokens, i, chain) {
        if i < n {
          assert NamesAt(tokens[..n], i, chain);
        }
      }
    }
  }

  lemma NamesAtPrefix(tokens: seq<string>, n: nat, i: nat, chain: ChainKey)
    requires i < n <= |tokens|
    ensures NamesAt(tokens[..n], i, chain) == NamesAt(tokens, i, chain)
  {
  }

  lemma NamedLast(tokens: seq<string>, chain: ChainKey)
    requires tokens != [] && chain != Solana
    ensures chain in Named(tokens) <==> chain in Named(tokens[..|tokens| - 1]) || NamesAt(tokens, |tokens| - 1, chain)
  {
    hide NormalizeChainKey;
  }

  function Names(chains: seq<ChainKey>): seq<string> {
    if chains == [] then [] else [ChainName(chains[0])] + Names(chains[1..])
  }

  function Join(chains: seq<ChainKey>): string {
    if chains == [] then ""
    else if |chains| == 1 then ChainName(chains[0])
    else ChainName(chains[0]) + "," + Join(chains[1..])
  }

  lemma NameHasNoSeparator(chain: ChainKey)
    ensures ChainName(chain) != "" && forall i :: 0 <= i < |ChainName(chain)| ==> !IsSeparator(ChainName(chain)[i])
  {
  }

  lemma {:induction false} WordIsPrefix(word: string, rest: string)
    requires forall i :: 0 <= i < |word| ==> !IsSeparator(word[i])
    requires rest == "" || IsSeparator(rest[0])
    ensures WordLength(word + rest) == |word|
  {
    if word == "" {
      assert word + rest == rest;
    } else {
      assert (word + rest)[1..] == word[1..] + rest;
      WordIsPrefix(word[1..], rest);
    }
  }

  lemma TokensOfWord(word: string, rest: string)
    requires word != "" && forall i :: 0 <= i < |word| ==> !IsSeparator(word[i])
    requires rest == "" || IsSeparator(rest[0])
    ensures Tokens(word + rest) == [word] + Tokens(rest)
  {
    WordIsPrefix(word, rest);
    assert SkipSeparators(word + rest) == word + rest;
    assert (word + rest)[..|word|] == word && (word + rest)[|word|..] == rest;
  }

  lemma TokensSkip(s: string)
    ensures Tokens("," + s) == Tokens(s)
  {
    assert ("," + s)[1..] == s;
    assert SkipSeparators("," + s) == SkipSeparators(s);
  }

  lemma {:induction false} TokensOfJoin(chains: seq<ChainKey>)
    ensures Tokens(Join(chains)) == Names(chains)
  {
    hide ChainName, Tokens, IsSeparator;
    if chains == [] {
      NoTokens();
    } else {
      var word := ChainName(chains[0]);
      NameHasNoSeparator(chains[0]);
      if |chains| == 1 {
        TokensOfWord(word, "");
        NoTokens();
        assert word + "" == word;
      } else {
        CommaSeparates(Join(chains[1..]));
        TokensOfWord(word, "," + Join(chains[1..]));
        TokensSkip(Join(chains[1..]));
        TokensOfJoin(chains[1..]);
        assert word + "," + Join(chains[1..]) == word + ("," + Join(chains[1..]));
      }
    }
  }

  lemma NoTokens()
    ensures Tokens("") == []
  {
  }

  lemma CommaSeparates(s: string)
    ensures IsSeparator(("," + s)[0])
  {
  }

  lemma {:induction false} NamesConcat(first: seq<ChainKey>, last: ChainKey)
    ensures Names(first + [last]) == Names(first) + [ChainName(last)]
  {
    if first == [] {
      assert first + [last] == [last] && [last][1..] == [];
    } else {
      assert (first + [last])[1..] == first[1..] + [last];
      NamesConcat(first[1..], last);
    }
  }

  lemma {:induction false} NamedOfNames(chains: seq<ChainKey>)
    requires Distinct(chains) && EvmOnly(chains)
    ensures Named(Names(chains)) == chains
  {
    if chains != [] {
      hide NormalizeChainKey, ChainName;
      var n := |chains| - 1;
      NamedOfNames(chains[..n]);
      NamesConcat(chains[..n], chains[n]);
      NameNormalisesToChain(chains[n], Solana);
      assert chains == chains[..n] + [chains[n]];
      var names := Names(chains);
      assert names[..|names| - 1] == Names(chains[..n]);
    }
  }

  /** With a duplicate-free fallback the chain list is duplicate-free, and reading back its comma-joined names gives
      the same list. */
  lemma ChainListIsStable(value: Option<string>, fallback: seq<ChainKey>)
    requires Distinct(fallback) && EvmOnly(fallback)
    ensures
      var chains := ChainList(value, fallback);
      Distinct(chains) && EvmOnly(chains) && ChainList(Some(Join(chains)), fallback) == chains
  {
    var chains := ChainList(value, fallback);
    NamedIsDistinct(Tokens(value.GetOr("")));
    TokensOfJoin(chains);
    NamedOfNames(chains);
  }

  // ---------------------------------------------------------------------------------------------
  // Lifecycle records

  /** An unknown value; a number that is not finite carries no value. */
  datatype Json =
    | Undefined | Null | Bool(b: bool) | Number(n: Option<real>) | Text(s: string) | Object(fields: map<string, Json>)

  function Field(fields: map<string, Json>, key: string): Json { if key in fields then fields[key] else Undefined }

  function OptionalText(value: Json): Option<string> { if value.Text? then Some(value.s) else None }

  function Timestamp(value: Json): Option<real> { if value.Number? then value.n else None }

  function ChainOf(value: Json): Option<ChainKey> {
    if !value.Text? then None
    else
      var normalized := Lower(Trim(value.s));
      if normalized == "sol" || normalized == "solana" then Some(Solana) else EvmChainOfAlias(normalized)
  }

  const LIFECYCLE_STATUSES: seq<string> :=
    ["PENDING", "OPEN", "LOCKED", "PROPOSED", "CHALLENGED", "RESOLVED", "CANCELLED", "UNKNOWN"]

  function Status(value: Json): string {
    if value.Text? && value.s in LIFECYCLE_STATUSES then value.s else "UNKNOWN"
  }

  function Winner(value: Json): string {
    if value == Text("A") || value == Text("B") || value == Text("NONE") then value.s else "NONE"
  }

  function MarketType(value: Json): Option<string> {
    if value == Text("amm") || value == Text("clob") then Some(value.s) else None
  }

  function TextOrNull(value: Option<string>): Json { if value.Some? then Text(value.value) else Null }

  function NumberOrNull(value: Option<real>): Json { if value.Some? then Number(value) else Null }

  /** Every field is kept; the four reserved ones are cleaned. */
  function Metadata(value: Json): Json {
    if !value.Object? then Undefined
    else Object(value.fields[
      "proposalId" := TextOrNull(OptionalText(Field(value.fields, "proposalId")))][
      "challengeWindowEndsAt" := NumberOrNull(Timestamp(Field(value.fields, "challengeWindowEndsAt")))][
      "finalizedAt" := NumberOrNull(Timestamp(Field(value.fields, "finalizedAt")))][
      "cancellationReason" := TextOrNull(OptionalText(Field(value.fields, "cancellationReason")))])
  }

  datatype Record = Record(
    chainKey: ChainKey,
    duelKey: Option<string>,
    duelId: Option<string>,
    marketId: Option<string>,
    marketRef: Option<string>,
    lifecycleStatus: string,
    winner: string,
    betCloseTime: Option<real>,
    contractAddress: Option<string>,
    programId: Option<string>,
    txRef: Option<string>,
    syncedAt: Option<real>,
    metadata: Json,
    marketType: Option<string>)

  function NormalizeRecord(value: Json, duelKeyPrefix: bool): Option<Record> {
    if !value.Object? then None
    else
      var f := value.fields;
      var chainKey := ChainOf(Field(f, "chainKey"));
      if chainKey.None? then None
      else Some(Record(
        chainKey.value,
        NormalizeDuelKey(OptionalText(Field(f, "duelKey")), duelKeyPrefix),
        OptionalText(Field(f, "duelId")),
        OptionalText(Field(f, "marketId")),
        OptionalText(Field(f, "marketRef")),
        Status(Field(f, "lifecycleStatus")),
        Winner(Field(f, "winner")),
        Timestamp(Field(f, "betCloseTime")),
        OptionalText(Field(f, "contractAddress")),
        OptionalText(Field(f, "programId")),
        OptionalText(Field(f, "txRef")),
        Timestamp(Field(f, "syncedAt")),
        Metadata(Field(f, "metadata")),
        MarketType(Field(f, "marketType"))))
  }

  /** A record as the value that a caller would hand back; an absent market type is an absent field. */
  function AsJson(r: Record): Json {
    var fields := map[
      "chainKey" := Text(ChainName(r.chainKey)),
      "duelKey" := TextOrNull(r.duelKey),
      "duelId" := TextOrNull(r.duelId),
      "marketId" := TextOrNull(r.marketId),
      "marketRef" := TextOrNull(r.marketRef),
      "lifecycleStatus" := Text(r.lifecycleStatus),
      "winner" := Text(r.winner),
      "betCloseTime" := NumberOrNull(r.betCloseTime),
      "contractAddress" := TextOrNull(r.contractAddress),
      "programId" := TextOrNull(r.programId),
      "txRef" := TextOrNull(r.txRef),
      "syncedAt" := NumberOrNull(r.syncedAt),
      "metadata" := r.metadata];
    Object(if r.marketType.Some? then fields["marketType" := Text(r.marketType.value)] else fields)
  }

  lemma MetadataIdempotent(value: Json)
    ensures Metadata(Metadata(value)) == Metadata(value)
  {
    if value.Object? {
      var once := Metadata(value).fields;
      assert Metadata(Metadata(value)).fields == once;
    }
  }

  lemma IdentityFields(r: Record)
    ensures
      var f := AsJson(r).fields;
      && Field(f, "chainKey") == Text(ChainName(r.chainKey))
      && Field(f, "duelKey") == TextOrNull(r.duelKey)
      && Field(f, "duelId") == TextOrNull(r.duelId)
      && Field(f, "marketId") == TextOrNull(r.marketId)
      && Field(f, "marketRef") == TextOrNull(r.marketRef)
  {
    hide ChainName, TextOrNull, NumberOrNull;
  }

  lemma StateFields(r: Record)
    ensures
      var f := AsJson(r).fields;
      && Field(f, "lifecycleStatus") == Text(r.lifecycleStatus)
      && Field(f, "winner") == Text(r.winner)
      && Field(f, "betCloseTime") == NumberOrNull(r.betCloseTime)
      && Field(f, "syncedAt") == NumberOrNull(r.syncedAt)
      && Field(f, "metadata") == r.metadata
  {
    hide ChainName, TextOrNull, NumberOrNull;
  }

  lemma OriginFields(r: Record)
    ensures
      var f := AsJson(r).fields;
      && Field(f, "contractAddress") == TextOrNull(r.contractAddress)
      && Field(f, "programId") == TextOrNull(r.programId)
      && Field(f, "txRef") == TextOrNull(r.txRef)
      && Field(f, "marketType") == if r.marketType.Some? then Text(r.marketType.value) else Undefined
  {
    hide ChainName, TextOrNull, NumberOrNull;
  }

  lemma ChainNameReads(chain: ChainKey)
    ensures ChainOf(Text(ChainName(chain))) == Some(chain)
  {
    NameIsPlain(chain);
  }

  lemma StatusReads(value: Json)
    ensures Status(Text(Status(value))) == Status(value)
  {
  }

  lemma WinnerReads(value: Json)
    ensures Winner(Text(Winner(value))) == Winner(value)
  {
  }

  lemma MarketTypeReads(value: Json)
    ensures
      var once := MarketType(value);
      MarketType(if once.Some? then Text(once.value) else Undefined) == once
  {
  }

  lemma OptionsRead(text: Option<string>, number: Json)
    ensures OptionalText(TextOrNull(text)) == text
    ensures Timestamp(NumberOrNull(Timestamp(number))) == Timestamp(number)
  {
  }

  /** Normalising a normalised record changes nothing but the spelling of the duel key, and that only when the
      prefix option differs: the result is what normalising the original with the second option gives. */
  lemma RecordIdempotent(value: Json, first: bool, second: bool)
    ensures
      var once := NormalizeRecord(value, first);
      once.Some? ==> NormalizeRecord(AsJson(once.value), second) == NormalizeRecord(value, second)
  {
    var once := NormalizeRecord(value, first);
    if once.Some? {
      var r, f := once.value, value.fields;
      DuelKeyIdempotent(OptionalText(Field(f, "duelKey")), first, second);
      MetadataIdempotent(Field(f, "metadata"));
      ChainNameReads(r.chainKey);
      StatusReads(Field(f, "lifecycleStatus"));
      WinnerReads(Field(f, "winner"));
      MarketTypeReads(Field(f, "marketType"));
      IdentityFields(r);
      StateFields(r);
      OriginFields(r);
      OptionsRead(r.duelKey, Field(f, "betCloseTime"));
      OptionsRead(r.duelId, Field(f, "syncedAt"));
      OptionsRead(r.marketId, Null);
      OptionsRead(r.marketRef, Null);
      OptionsRead(r.contractAddress, Null);
      OptionsRead(r.programId, Null);
      OptionsRead(r.txRef, Null);
      assert AsJson(r).Object?;
      hide NormalizeDuelKey, Metadata, ChainOf, ChainName, Status, Winner, MarketType, Timestamp, OptionalText,
        TextOrNull, NumberOrNull, Field, AsJson;
    }
  }

  /** The record reader and the name reader take the same names. */
  lemma ChainReadersAgree(value: string, fallback: ChainKey)
    ensures ChainOf(Text(value)).GetOr(fallback) == NormalizeChainKey(Some(value), fallback)
  {
    hide Lower, Trim;
  }

  predicate TextOrNothing(value: Json) { value.Text? || value == Null }

  predicate NumberOrNothing(value: Json) { (value.Number? && value.n.Some?) || value == Null }

  /** Metadata whose four reserved fields are there and clean, or none at all. */
  predicate CleanMetadata(value: Json) {
    value == Undefined ||
    (&& value.Object?
     && TextOrNothing(Field(value.fields, "proposalId")) && NumberOrNothing(Field(value.fields, "challengeWindowEndsAt"))
     && NumberOrNothing(Field(value.fields, "finalizedAt")) && TextOrNothing(Field(value.fields, "cancellationReason")))
  }

  /** A key as the prefix option spells it. */
  predicate CleanKey(key: string, prefix: bool) {
    if prefix then HasPrefix(key) && IsHex64(key[2..]) else IsHex64(key)
  }

  predicate CleanRecord(r: Record, prefix: bool) {
    && (r.duelKey.Some? ==> CleanKey(r.duelKey.value, prefix))
    && r.lifecycleStatus in
         ["PENDING", "OPEN", "LOCKED", "PROPOSED", "CHALLENGED", "RESOLVED", "CANCELLED", "UNKNOWN"]
    && r.winner in ["A", "B", "NONE"]
    && CleanMetadata(r.metadata)
    && (r.marketType.Some? ==> r.marketType.value in ["amm", "clob"])
  }

  lemma CleanKeyReads(key: string, prefix: bool)
    requires CleanKey(key, prefix)
    ensures NormalizeDuelKey(Some(key), prefix) == Some(key)
  {
    if prefix {
      PrefixedKeyReads(key[2..], true);
      assert key == "0x" + key[2..];
    } else {
      PlainKeyReads(key, false);
    }
  }

  lemma KeysAreClean(value: Option<string>, prefix: bool)
    ensures var key := NormalizeDuelKey(value, prefix); key.Some? ==> CleanKey(key.value, prefix)
  {
    KeyIsPlain(value, prefix);
    var plain := NormalizeDuelKey(value, false);
    hide NormalizeDuelKey, IsHex64;
    if plain.Some? && prefix {
      assert ("0x" + plain.value)[2..] == plain.value;
    }
  }

  lemma CleanMetadataReads(value: Json)
    requires CleanMetadata(value)
    ensures Metadata(value) == value
  {
    if value.Object? {
      CleanFieldReads(value.fields, "proposalId");
      CleanFieldReads(value.fields, "challengeWindowEndsAt");
      CleanFieldReads(value.fields, "finalizedAt");
      CleanFieldReads(value.fields, "cancellationReason");
      assert Metadata(value).fields == value.fields;
    }
  }

  lemma CleanFieldReads(fields: map<string, Json>, key: string)
    ensures TextOrNothing(Field(fields, key)) ==> key in fields && TextOrNull(OptionalText(fields[key])) == fields[key]
    ensures NumberOrNothing(Field(fields, key)) ==> key in fields && NumberOrNull(Timestamp(fields[key])) == fields[key]
  {
  }

  lemma MetadataIsClean(value: Json)
    ensures CleanMetadata(Metadata(value))
  {
  }

  /** Metadata keeps every field that is not reserved. */
  lemma MetadataKeepsOthers(value: Json, key: string)
    requires value.Object?
    requires key !in ["proposalId", "challengeWindowEndsAt", "finalizedAt", "cancellationReason"]
    ensures Field(Metadata(value).fields, key) == Field(value.fields, key)
  {
    assert key != "proposalId" && key != "challengeWindowEndsAt" && key != "finalizedAt" && key != "cancellationReason";
  }

  /** A reserved field that is no text, or no finite number, reads as null; one that is, as itself. */
  lemma MetadataCleansReserved(value: Json)
    requires value.Object?
    ensures
      var before, after := value.fields, Metadata(value).fields;
      && Field(after, "proposalId")
         == (if Field(before, "proposalId").Text? then Field(before, "proposalId") else Null)
      && Field(after, "cancellationReason")
         == (if Field(before, "cancellationReason").Text? then Field(before, "cancellationReason") else Null)
      && Field(after, "finalizedAt")
         == (if NumberOrNothing(Field(before, "finalizedAt")) then Field(before, "finalizedAt") else Null)
      && Field(after, "challengeWindowEndsAt")
         == (if NumberOrNothing(Field(before, "challengeWindowEndsAt")) then Field(before, "challengeWindowEndsAt") else Null)
  {
  }

  lemma StatusIsKnown(status: string)
    requires status in ["PENDING", "OPEN", "LOCKED", "PROPOSED", "CHALLENGED", "RESOLVED", "CANCELLED", "UNKNOWN"]
    ensures Status(Text(status)) == status
  {
  }

  lemma ChoicesRead(winner: string, marketType: Option<string>)
    requires winner in ["A", "B", "NONE"] && (marketType.Some? ==> marketType.value in ["amm", "clob"])
    ensures Winner(Text(winner)) == winner
    ensures MarketType(if marketType.Some? then Text(marketType.value) else Undefined) == marketType
  {
    assert winner == "A" || winner == "B" || winner == "NONE";
    if marketType.Some? {
      assert marketType.value == "amm" || marketType.value == "clob";
    }
  }

  /** Reading back: a clean record, written out field by field, is read as itself. */
  lemma RecordReadsBack(r: Record, prefix: bool)
    requires CleanRecord(r, prefix)
    ensures NormalizeRecord(AsJson(r), prefix) == Some(r)
  {
    if r.duelKey.Some? {
      CleanKeyReads(r.duelKey.value, prefix);
    } else {
      assert NormalizeDuelKey(None, prefix) == None;
    }
    CleanMetadataReads(r.metadata);
    StatusIsKnown(r.lifecycleStatus);
    ChoicesRead(r.winner, r.marketType);
    ChainNameReads(r.chainKey);
    IdentityFields(r);
    StateFields(r);
    OriginFields(r);
    hide NormalizeDuelKey, Metadata, ChainOf, ChainName, Status, Winner, MarketType, CleanRecord, CleanMetadata, Field, AsJson;
    OptionsRead(r.duelKey, Null);
    OptionsRead(r.duelId, Null);
    OptionsRead(r.marketId, Null);
    OptionsRead(r.marketRef, Null);
    OptionsRead(r.contractAddress, Null);
    OptionsRead(r.programId, Null);
    OptionsRead(r.txRef, Null);
    NumbersRead(r.betCloseTime);
    NumbersRead(r.syncedAt);
    hide OptionalText, TextOrNull, Timestamp, NumberOrNull;
    WrittenIsObject(r);
  }

  lemma WrittenIsObject(r: Record)
    ensures AsJson(r).Object?
  {
  }

  lemma NumbersRead(number: Option<real>)
    ensures Timestamp(NumberOrNull(number)) == number
  {
  }

  /** What is read is always a clean record, and there is none exactly when the value is no object or its chain has no
      known name. */
  lemma RecordsAreClean(value: Json, prefix: bool)
    ensures
      var r := NormalizeRecord(value, prefix);
      && (r.Some? <==> value.Object? && ChainOf(Field(value.fields, "chainKey")).Some?)
      && (r.Some? ==> CleanRecord(r.value, prefix))
  {
    if value.Object? {
      KeysAreClean(OptionalText(Field(value.fields, "duelKey")), prefix);
      MetadataIsClean(Field(value.fields, "metadata"));
      ChoicesAreClean(Field(value.fields, "lifecycleStatus"), Field(value.fields, "winner"), Field(value.fields, "marketType"));
    }
    hide NormalizeDuelKey, Metadata, ChainOf, Status, Winner, MarketType, CleanMetadata, CleanKey, Field;
  }

  lemma ChoicesAreClean(status: Json, winner: Json, marketType: Json)
    ensures Status(status) in ["PENDING", "OPEN", "LOCKED", "PROPOSED", "CHALLENGED", "RESOLVED", "CANCELLED", "UNKNOWN"]
    ensures Winner(winner) in ["A", "B", "NONE"]
    ensures MarketType(marketType).Some? ==> MarketType(marketType).value in ["amm", "clob"]
  {
    var winners, types := ["A", "B", "NONE"], ["amm", "clob"];
    assert winners[0] in winners && winners[1] in winners && winners[2] in winners;
    assert types[0] in types && types[1] in types;
    assert LIFECYCLE_STATUSES[7] in LIFECYCLE_STATUSES;
  }
}
