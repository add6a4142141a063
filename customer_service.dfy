/** The customer service (ClienteService): the required-field check, the
    email shape check, and registration as an append to the customer
    store. */
module CustomerService {

  /** A customer record: field name to value. */
  type Record = map<string, string>

  /** The fields a record must have. */
  const RequiredFields: seq<string> := ["nome", "email", "cnpj"]

  /** Every name in fields is a key of c. */
  function HasFields(c: Record, fields: seq<string>): (r: bool)
    ensures r <==> forall i :: 0 <= i < |fields| ==> fields[i] in c
  {
    if fields == [] then true
    else fields[0] in c && HasFields(c, fields[1..])
  }

  /** _dados_validos: the record has a name, an email and a CNPJ. */
  function HasRequiredFields(c: Record): (r: bool)
    ensures r <==> "nome" in c && "email" in c && "cnpj" in c
  {
    assert |RequiredFields| == 3;
    assert RequiredFields[0] == "nome" && RequiredFields[1] == "email" && RequiredFields[2] == "cnpj";
    HasFields(c, RequiredFields)
  }

  // ---------------------------------------------------------------
  // The email pattern ^[^\s@]+@[^\s@]+\.[^\s@]+$ under Python's re.match.
  // ---------------------------------------------------------------

  /** Python's \s on text: the characters str.isspace() accepts. */
  predicate IsSpace(ch: char) {
    var n := ch as int;
    (9 <= n <= 13) || (28 <= n <= 32) || n == 0x85 || n == 0xA0 || n == 0x1680
    || (0x2000 <= n <= 0x200A) || n == 0x2028 || n == 0x2029 || n == 0x202F
    || n == 0x205F || n == 0x3000
  }

  /** The class [^\s@]. */
  predicate InClass(ch: char) {
    !IsSpace(ch) && ch != '@'
  }

  /** t matches [^\s@]+ . */
  predicate ClassPlus(t: seq<char>) {
    |t| > 0 && forall k :: 0 <= k < |t| ==> InClass(t[k])
  }

  /** s splits as local-part '@' domain '.' suffix at positions i and j,
      each of the three parts matching [^\s@]+ . */
  ghost predicate SplitsAt(s: seq<char>, i: int, j: int) {
    0 < i < j < |s| && s[i] == '@' && s[j] == '.'
    && ClassPlus(s[..i]) && ClassPlus(s[i + 1..j]) && ClassPlus(s[j + 1..])
  }

  /** s matches the pattern between ^ and $ exactly. */
  ghost predicate PatternMatches(s: seq<char>) {
    exists i, j :: SplitsAt(s, i, j)
  }

  /** re.match with the pattern: Python's $ also matches just before a
      final newline, so the pattern may be followed by one '\n'. */
  ghost predicate RegexMatches(s: seq<char>) {
    PatternMatches(s) || (|s| > 0 && s[|s| - 1] == '\n' && PatternMatches(s[..|s| - 1]))
  }

  /** The first position at or after k where c occurs in s, or -1 when it
      does not occur there. */
  function IndexFrom(s: seq<char>, c: char, k: nat): (r: int)
    ensures r == -1 || k <= r < |s|
    ensures 0 <= r ==> s[r] == c && forall m :: k <= m < r ==> s[m] != c
    ensures r == -1 ==> forall m :: k <= m < |s| ==> s[m] != c
    decreases |s| - k
  {
    if k >= |s| then -1
    else if s[k] == c then k
    else IndexFrom(s, c, k + 1)
  }

  /** No character of s at or after k is whitespace. */
  function NoSpaceFrom(s: seq<char>, k: nat): (r: bool)
    ensures r <==> forall m :: k <= m < |s| ==> !IsSpace(s[m])
    decreases |s| - k
  {
    if k >= |s| then true
    else !IsSpace(s[k]) && NoSpaceFrom(s, k + 1)
  }

  /** The shape of an address, condition by condition: no whitespace, an
      '@' with something before it and no second '@' after it, and after it
      a '.' that is neither the first nor the last character. */
  predicate HasEmailShape(s: seq<char>) {
    var at := IndexFrom(s, '@', 0);
    NoSpaceFrom(s, 0) && 0 < at && IndexFrom(s, '@', at + 1) == -1
    && var dot := IndexFrom(s, '.', at + 2);
       0 <= dot < |s| - 1
  }

  /** The shape conditions say exactly what the pattern says. */
  lemma ShapeIffPattern(s: seq<char>)
    ensures HasEmailShape(s) <==> PatternMatches(s)
  {
    if HasEmailShape(s) {
      var i := IndexFrom(s, '@', 0);
      var j := IndexFrom(s, '.', i + 2);
      forall m | 0 <= m < |s| && m != i
        ensures InClass(s[m])
      {
      }
      assert ClassPlus(s[..i]);
      assert ClassPlus(s[i + 1..j]);
      assert ClassPlus(s[j + 1..]);
      assert SplitsAt(s, i, j);
    }
    if PatternMatches(s) {
      var i, j :| SplitsAt(s, i, j);
      forall m | 0 <= m < |s| && m != i
        ensures InClass(s[m])
      {
        if m < i {
          assert s[m] == s[..i][m];
        } else if m < j {
          assert s[m] == s[i + 1..j][m - i - 1];
        } else if j < m {
          assert s[m] == s[j + 1..][m - j - 1];
        }
      }
      assert IndexFrom(s, '@', 0) == i;
      assert IndexFrom(s, '@', i + 1) == -1;
      var dot := IndexFrom(s, '.', i + 2);
      assert 0 <= dot <= j;
    }
  }

  /** _email_valido: the shape conditions, where Python's $ also lets
      through one final newline after an address of the right shape. */
  predicate EmailValid(email: string) {
    HasEmailShape(email)
    || (|email| > 0 && email[|email| - 1] == '\n' && HasEmailShape(email[..|email| - 1]))
  }

  /** EmailValid accepts exactly the strings re.match accepts with the
      pattern ^[^\s@]+@[^\s@]+\.[^\s@]+$ . */
  lemma EmailValidIffRegex(email: string)
    ensures EmailValid(email) <==> RegexMatches(email)
  {
    ShapeIffPattern(email);
    if |email| > 0 {
      ShapeIffPattern(email[..|email| - 1]);
    }
  }

  /** A valid address holds exactly one '@'. */
  lemma ValidEmailHasOneAt(email: string)
    requires EmailValid(email)
    ensures multiset(email)['@'] == 1
  {
    if HasEmailShape(email) {
      ShapeHasOneAt(email);
    } else {
      var s := email[..|email| - 1];
      ShapeHasOneAt(s);
      assert email == s + ['\n'];
      assert multiset(email) == multiset(s) + multiset{'\n'};
    }
  }

  lemma ShapeHasOneAt(s: seq<char>)
    requires HasEmailShape(s)
    ensures multiset(s)['@'] == 1
  {
    var i := IndexFrom(s, '@', 0);
    assert s == s[..i] + [s[i]] + s[i + 1..];
    assert multiset(s) == multiset(s[..i]) + multiset{s[i]} + multiset(s[i + 1..]);
    assert '@' !in s[..i];
    assert '@' !in s[i + 1..];
  }

  /** Three words of the class [^\s@]+ joined as local '@' domain '.'
      suffix always form a valid address. */
  lemma JoinedWordsAreValid(local: string, domain: string, suffix: string)
    requires ClassPlus(local) && ClassPlus(domain) && ClassPlus(suffix)
    ensures EmailValid(local + "@" + domain + "." + suffix)
  {
    var s := local + "@" + domain + "." + suffix;
    var i := |local|;
    var j := |local| + 1 + |domain|;
    assert s[..i] == local;
    assert s[i + 1..j] == domain;
    assert s[j + 1..] == suffix;
    assert SplitsAt(s, i, j);
    ShapeIffPattern(s);
  }

  /** An example from the email tests: a two-part domain passes. */
  lemma EmailExampleTwoPartDomain()
    ensures EmailValid("contato@empresa.com.br")
  {
    assert "contato@empresa.com.br" == "contato" + "@" + "empresa" + "." + "com.br";
    JoinedWordsAreValid("contato", "empresa", "com.br");
  }

  /** An example: a plain address passes. */
  lemma EmailExamplePlain()
    ensures EmailValid("teste@valido.com")
  {
    assert "teste@valido.com" == "teste" + "@" + "valido" + "." + "com";
    JoinedWordsAreValid("teste", "valido", "com");
  }

  /** An example: without '@' the address fails. */
  lemma EmailExampleNoAt()
    ensures !EmailValid("contatoempresa.com")
  {
    var s := "contatoempresa.com";
    assert forall m :: 0 <= m < |s| ==> s[m] != '@';
    assert IndexFrom(s, '@', 0) == -1;
  }

  /** Examples: a doubled '@' fails. */
  lemma EmailExampleDoubleAt()
    ensures !EmailValid("usuario@@dominio.com")
    ensures !EmailValid("teste@@invalido")
  {
    var s := "usuario@@dominio.com";
    assert s[7] == '@' && s[8] == '@';
    assert IndexFrom(s, '@', 0) == 7 && IndexFrom(s, '@', 8) == 8;
    var t := "teste@@invalido";
    assert t[5] == '@' && t[6] == '@';
    assert IndexFrom(t, '@', 0) == 5 && IndexFrom(t, '@', 6) == 6;
  }

  /** Examples of the $ quirk: one final newline is let through, a final
      space is not. */
  lemma EmailExampleTrailingNewline()
    ensures EmailValid("a@b.c\n")
    ensures !EmailValid("a@b.c ")
  {
    assert "a@b.c\n"[..5] == "a@b.c";
    assert "a@b.c"[3..4][0] == '.';
    assert IsSpace("a@b.c "[5]);
  }

  /** The customer service: a store of the records registered so far, one
      per line of the customer file named fileName. */
  class Registry {
    /** The name of the customer file; it only names the file and is never
        read, since the file's contents are the store below. */
    const fileName: string
    var store: seq<Record>

    /** A service over the customer file, "clientes.txt" unless told
        otherwise, which already holds the records existing. */
    constructor (fileName: string := "clientes.txt", existing: seq<Record> := [])
      ensures this.fileName == fileName && store == existing
    {
      this.fileName := fileName;
      store := existing;
    }

    /** _salvar_cliente: append c at the end of the store; the records
        already there stay as they were. */
    method Save(c: Record)
      modifies this
      ensures store == old(store) + [c]
      ensures |store| == |old(store)| + 1 && store[..|old(store)|] == old(store)
    {
      store := store + [c];
    }

    /** cadastrar_cliente: a record missing a required field is refused and
        the store is left alone; a complete record is saved once and
        accepted whatever its email, with a warning when the email does not
        match the pattern. */
    method Register(c: Record) returns (ok: bool, warned: bool)
      modifies this
      ensures ok == HasRequiredFields(c)
      ensures warned <==> ok && !EmailValid(c["email"])
      ensures store == if ok then old(store) + [c] else old(store)
    {
      if !HasRequiredFields(c) {
        return false, false;
      }
      warned := !EmailValid(c["email"]);
      Save(c);
      ok := true;
    }
  }
}
