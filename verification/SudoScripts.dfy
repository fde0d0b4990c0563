/** Which account may be granted which project script (cli_account_policy.py:33-80,
    cli_account_hardening.py:95-108). */
module SudoScripts {
  import opened Lines
  import opened Options
  import Seqs

  const SCRIPT_DIR := "/usr/local/sbin"

  /** An entry of `sudo_commands`; `repr` tells the entries that are no strings apart. */
  datatype Entry = Path(path: string) | NotAString(repr: string)

  datatype Error = BadReason | NoList | NotAScript(entry: Entry) | Duplicate | Foreign(path: string, owner: string)

  // ---------------------------------------------------------------------------
  // one path
  // ---------------------------------------------------------------------------

  /** `/usr/local/sbin/<account>-` */
  function Prefix(account: string): string { SCRIPT_DIR + "/" + account + "-" }

  predicate Matches(account: string, path: string) { StartsWith(path, Prefix(account)) }

  predicate NameStart(c: char) { 'a' <= c <= 'z' || '0' <= c <= '9' }

  predicate NameChar(c: char) { NameStart(c) || c == '.' || c == '_' || c == '-' }

  /** `sudo_script_problem(account, path) is None` */
  predicate ScriptOk(account: string, path: string) {
    && Matches(account, path)
    && var name := path[|Prefix(account)|..];
    && name != "" && NameStart(name[0]) && (forall c :: c in name ==> NameChar(c))
    && forall i :: 0 <= i < |path| - 1 ==> !(path[i] == '.' && path[i + 1] == '.')
  }

  function Owners(declared: seq<string>, path: string): (owners: seq<string>)
    ensures forall a :: a in owners <==> a in declared && Matches(a, path)
  {
    if declared == [] then []
    else (if Matches(declared[0], path) then [declared[0]] else []) + Owners(declared[1..], path)
  }

  /** `max(owners, key=len, default=account)`: the first of the longest. */
  function Longest(owners: seq<string>, account: string): (owner: string)
    ensures owners == [] ==> owner == account
    ensures owners != [] ==> owner in owners && forall a :: a in owners ==> |a| <= |owner|
  {
    if owners == [] then account
    else
      var rest := Longest(owners[1..], owners[0]);
      if |owners[0]| >= |rest| then owners[0] else rest
  }

  /** Two names of one length that match a path are the same name. */
  lemma SameLengthSameName(a: string, b: string, path: string)
    requires Matches(a, path) && Matches(b, path) && |a| == |b|
    ensures a == b
  {
    var n := |SCRIPT_DIR| + 1;
    assert Prefix(a)[n..n + |a|] == a && Prefix(b)[n..n + |b|] == b;
    assert Prefix(a) == path[..|Prefix(a)|] == Prefix(b);
  }

  /** The owner of a path is the longest declared name it matches, and there is only one. */
  lemma OwnerIff(declared: seq<string>, account: string, path: string)
    requires account in declared && Matches(account, path)
    ensures Longest(Owners(declared, path), account) == account <==>
      forall a :: a in declared && Matches(a, path) ==> |a| <= |account|
  {
    var owner := Longest(Owners(declared, path), account);
    assert account in Owners(declared, path);
    if |owner| == |account| {
      SameLengthSameName(owner, account, path);
    }
  }

  // ---------------------------------------------------------------------------
  // a declaration
  // ---------------------------------------------------------------------------

  /** `_validate_sudo_commands`. `reasonOk` is the outcome of the test on the reason line. */
  method ValidateSudoCommands(account: string, reasonOk: bool, cmds: Option<seq<Entry>>) returns (errs: seq<Error>)
    ensures errs == [] <==>
      && reasonOk && cmds.Some? && cmds.value != []
      && (forall c :: c in cmds.value ==> c.Path? && ScriptOk(account, c.path))
      && forall i, j :: 0 <= i < j < |cmds.value| ==> cmds.value[i] != cmds.value[j]
  {
    errs := [];
    if !reasonOk {
      errs := errs + [BadReason];
    }
    if cmds == None || cmds.value == [] {
      return errs + [NoList];
    }
    var cs := cmds.value;
    for k := 0 to |cs|
      invariant errs == [] <==> reasonOk && forall i :: 0 <= i < k ==> cs[i].Path? && ScriptOk(account, cs[i].path)
    {
      if !(cs[k].Path? && ScriptOk(account, cs[k].path)) {
        errs := errs + [NotAScript(cs[k])];
      }
    }
    DistinctIff(cs);
    if |Elements(cs)| != |cs| {
      errs := errs + [Duplicate];
    }
  }

  function Elements(cs: seq<Entry>): set<Entry> { set c | c in cs }

  predicate Distinct(cs: seq<Entry>) { forall i, j :: 0 <= i < j < |cs| ==> cs[i] != cs[j] }

  lemma DistinctFirst(cs: seq<Entry>)
    requires cs != []
    ensures Distinct(cs) <==> cs[0] !in cs[1..] && Distinct(cs[1..])
  {
    var rest := cs[1..];
    assert forall i :: 1 <= i < |cs| ==> cs[i] == rest[i - 1];
    if cs[0] in rest {
      var j :| 0 <= j < |rest| && rest[j] == cs[0];
      assert cs[0] == cs[j + 1];
    } else if Distinct(rest) {
      forall i, j | 0 <= i < j < |cs| ensures cs[i] != cs[j] {
        assert cs[j] == rest[j - 1];
      }
    }
  }

  lemma ElementsOf(cs: seq<Entry>)
    requires cs != []
    ensures Elements(cs) == Elements(cs[1..]) + {cs[0]}
    ensures cs[0] in Elements(cs[1..]) <==> cs[0] in cs[1..]
  {
    assert forall c :: c in cs <==> c == cs[0] || c in cs[1..];
  }

  lemma {:induction false} DistinctIff(cs: seq<Entry>)
    ensures |Elements(cs)| <= |cs|
    ensures |Elements(cs)| == |cs| <==> Distinct(cs)
  {
    if cs != [] {
      DistinctIff(cs[1..]);
      DistinctFirst(cs);
      ElementsOf(cs);
      if cs[0] in cs[1..] {
        assert Elements(cs) == Elements(cs[1..]);
      }
    }
  }

  predicate OwnedBy(account: string, c: Entry, declared: seq<string>) {
    c.Path? ==> Longest(Owners(declared, c.path), account) == account
  }

  predicate AllOwnedBy(account: string, cs: seq<Entry>, declared: seq<string>) {
    forall c :: c in cs ==> OwnedBy(account, c, declared)
  }

  /** `_foreign_script_paths` */
  method ForeignScriptPaths(account: string, cmds: Option<seq<Entry>>, declared: seq<string>) returns (errs: seq<Error>)
    ensures errs == [] <==> (cmds.Some? ==> AllOwnedBy(account, cmds.value, declared))
  {
    errs := [];
    var cs := if cmds.Some? then cmds.value else [];
    for k := 0 to |cs|
      invariant errs == [] <==> AllOwnedBy(account, cs[..k], declared)
    {
      OneMoreOwned(account, cs, declared, k);
      var err := ForeignError(account, cs[k], declared);
      errs := errs + err;
    }
    assert cs[..|cs|] == cs;
  }

  lemma OneMoreOwned(account: string, cs: seq<Entry>, declared: seq<string>, k: nat)
    requires k < |cs|
    ensures AllOwnedBy(account, cs[..k + 1], declared) <==>
      AllOwnedBy(account, cs[..k], declared) && OwnedBy(account, cs[k], declared)
  {
    assert cs[..k + 1] == cs[..k] + [cs[k]];
  }

  method ForeignError(account: string, c: Entry, declared: seq<string>) returns (err: seq<Error>)
    ensures err == [] <==> OwnedBy(account, c, declared)
  {
    if c.Path? {
      var owner := Longest(Owners(declared, c.path), account);
      if owner != account {
        return [Foreign(c.path, owner)];
      }
    }
    return [];
  }

  /** What `validate_sudo` accepts as a `sudo: "commands"` declaration: a reason, and distinct scripts each
      of which is granted to the account. */
  ghost predicate Accepted(account: string, reasonOk: bool, cmds: Option<seq<Entry>>, declared: seq<string>) {
    && reasonOk && cmds.Some? && cmds.value != []
    && (forall i, j :: 0 <= i < j < |cmds.value| ==> cmds.value[i] != cmds.value[j])
    && forall c :: c in cmds.value ==> c.Path? && GrantedTo(account, c.path, declared)
  }

  /** The path is a script of the account. If the account is declared, no longer declared name matches it;
      if not, no declared name at all. */
  ghost predicate GrantedTo(account: string, path: string, declared: seq<string>) {
    && ScriptOk(account, path)
    && if account in declared then NoLongerOwner(account, path, declared) else NobodyOwns(path, declared)
  }

  ghost predicate NoLongerOwner(account: string, path: string, declared: seq<string>) {
    forall a :: a in declared && Matches(a, path) ==> |a| <= |account|
  }

  ghost predicate NobodyOwns(path: string, declared: seq<string>) {
    forall a :: a in declared ==> !Matches(a, path)
  }

  /** `validate_sudo` for `sudo: "commands"`. */
  method ValidateSudo(account: string, reasonOk: bool, cmds: Option<seq<Entry>>, declared: seq<string>)
    returns (errs: seq<Error>)
    ensures errs == [] <==> Accepted(account, reasonOk, cmds, declared)
  {
    var own := ValidateSudoCommands(account, reasonOk, cmds);
    var foreign := ForeignScriptPaths(account, cmds, declared);
    errs := own + foreign;
    if own == [] {
      forall c | c in cmds.value
        ensures OwnedBy(account, c, declared) <==> GrantedTo(account, c.path, declared)
      {
        if account in declared {
          OwnerIff(declared, account, c.path);
        } else if a :| a in declared && Matches(a, c.path) {
          assert a in Owners(declared, c.path);
        }
      }
    }
  }

  /** A script is granted to at most one declared account. */
  lemma OneOwner(a: string, b: string, path: string, declared: seq<string>)
    requires a in declared && b in declared
    requires GrantedTo(a, path, declared) && GrantedTo(b, path, declared)
    ensures a == b
  {
    SameLengthSameName(a, b, path);
  }

  /** Two accounts of which the path is a script are both granted it exactly if no declared name matches
      it. So a script that any declared account matches has one owner at most, declared or not. */
  lemma SharedIff(a: string, b: string, path: string, declared: seq<string>)
    requires a != b && ScriptOk(a, path) && ScriptOk(b, path)
    ensures GrantedTo(a, path, declared) && GrantedTo(b, path, declared) <==> NobodyOwns(path, declared)
  {
    if a in declared && b in declared && GrantedTo(a, path, declared) && GrantedTo(b, path, declared) {
      OneOwner(a, b, path, declared);
      assert false;
    }
  }

  /** Whatever two accounts declare, a script path that is accepted twice matches no declared account, and
      neither of the two is one. */
  lemma NoScriptIsShared(a: string, b: string, mine: seq<Entry>, theirs: seq<Entry>, path: string,
                         declared: seq<string>)
    requires a != b && Path(path) in mine && Path(path) in theirs
    requires Accepted(a, true, Some(mine), declared) && Accepted(b, true, Some(theirs), declared)
    ensures NobodyOwns(path, declared) && a !in declared && b !in declared
  {
    assert GrantedTo(a, Path(path).path, declared) && GrantedTo(b, Path(path).path, declared);
    SharedIff(a, b, path, declared);
  }

  predicate NoDot(t: string) { forall i :: 0 <= i < |t| ==> t[i] != '.' }

  lemma NoDotConcat(a: string, b: string)
    requires NoDot(a) && NoDot(b)
    ensures NoDot(a + b)
  {
  }

  /** It does happen: `a` and `a-b` are both granted `a-b-c` as long as no declared name matches that. */
  lemma UndeclaredAccountsMayShare(a: string, b: string, c: string, declared: seq<string>)
    requires NoDot(a) && b != "" && c != "" && forall x :: x in b || x in c ==> NameStart(x)
    requires NobodyOwns(Prefix(a + "-" + b) + c, declared)
    ensures var path := Prefix(a + "-" + b) + c;
      GrantedTo(a, path, declared) && GrantedTo(a + "-" + b, path, declared) && a != a + "-" + b
  {
    var path := Prefix(a + "-" + b) + c;
    assert path == Prefix(a) + (b + "-" + c);
    assert c[0] in c && b[0] in b;
    assert NoDot(b) by { assert forall i :: 0 <= i < |b| ==> b[i] in b; }
    assert NoDot(c) by { assert forall i :: 0 <= i < |c| ==> c[i] in c; }
    assert NoDot(SCRIPT_DIR + "/") && NoDot("-");
    NoDotConcat(SCRIPT_DIR + "/", a);
    NoDotConcat(SCRIPT_DIR + "/" + a, "-");
    NoDotConcat(b, "-");
    NoDotConcat(b + "-", c);
    NoDotConcat(Prefix(a), b + "-" + c);
  }

  // ---------------------------------------------------------------------------
  // where an accepted path lies
  // ---------------------------------------------------------------------------

  /** Lower-case letters, digits, dots, underscores and hyphens, a letter or digit first. */
  ghost predicate ScriptName(name: string) {
    && name != "" && ('a' <= name[0] <= 'z' || '0' <= name[0] <= '9')
    && forall i :: 0 <= i < |name| ==>
      'a' <= name[i] <= 'z' || '0' <= name[i] <= '9' || name[i] == '.' || name[i] == '_' || name[i] == '-'
  }

  ghost predicate NoDotDot(path: string) {
    forall i, j :: 0 <= i < j < |path| && path[i] == '.' && path[j] == '.' ==> i + 1 < j
  }

  /** A path is a script of the account exactly if it is `/usr/local/sbin/<account>-<name>` with such a name, and
      no two dots stand side by side in it. */
  lemma ScriptOkIff(account: string, path: string)
    ensures ScriptOk(account, path) <==>
      NoDotDot(path) && exists name :: ScriptName(name) && path == "/usr/local/sbin/" + account + "-" + name
  {
    var prefix := "/usr/local/sbin/" + account + "-";
    assert Prefix(account) == prefix;
    assert NoDotDot(path) <==> forall i :: 0 <= i < |path| - 1 ==> !(path[i] == '.' && path[i + 1] == '.');
    if Matches(account, path) {
      var name := path[|prefix|..];
      assert path == prefix + name;
      NameIs(name);
    }
    if name :| ScriptName(name) && path == prefix + name {
      Seqs.HeadOfConcat(prefix, name);
      NameIs(name);
    }
  }

  lemma NameIs(name: string)
    ensures ScriptName(name) <==> name != "" && NameStart(name[0]) && forall c :: c in name ==> NameChar(c)
  {
    if name != "" && forall c :: c in name ==> NameChar(c) {
      forall i | 0 <= i < |name| ensures NameChar(name[i]) {
        assert name[i] in name;
      }
    }
  }

  /** So it lies directly in that directory, as long as the account's name has no slash. */
  lemma ScriptStays(account: string, path: string)
    requires ScriptOk(account, path) && '/' !in account
    ensures exists file :: path == "/usr/local/sbin/" + file && '/' !in file
  {
    ScriptOkIff(account, path);
    var name :| ScriptName(name) && path == "/usr/local/sbin/" + account + "-" + name;
    var file := account + "-" + name;
    Seqs.Assoc("/usr/local/sbin/" + account, "-", name);
    assert path == "/usr/local/sbin/" + file;
    Seqs.InConcat(account, "-", '/');
    Seqs.InConcat(account + "-", name, '/');
  }
}
