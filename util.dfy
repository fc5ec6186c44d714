/** Placeholder rewriting (shared by the servefile action, which carries an identical copy) and
    the start-up cleanup of lock and segment files. */
module Util {
  import opened Common
  import opened Paths
  import opened Config
  import opened Host
  import Logging

  predicate IsTokenChar(c: char)
  {
    'a' <= c <= 'z' || c == '.'
  }

  /** A match of `\$[a-z.]+`. */
  predicate IsToken(t: string)
  {
    |t| >= 2 && t[0] == '$' && forall i :: 1 <= i < |t| ==> IsTokenChar(t[i])
  }

  /** The length of the run of token characters that starts `s`. */
  function RunLength(s: string): (n: nat)
    ensures n <= |s|
    ensures forall i :: 0 <= i < n ==> IsTokenChar(s[i])
    ensures n < |s| ==> !IsTokenChar(s[n])
    decreases |s|
  {
    if s != [] && IsTokenChar(s[0]) then 1 + RunLength(s[1..]) else 0
  }

  /** `re.findall(r"(\$[a-z\.]+)", s)`: the maximal tokens, left to right, not overlapping. */
  function Tokens(s: string): (ts: seq<string>)
    ensures forall i :: 0 <= i < |ts| ==> IsToken(ts[i])
    decreases |s|
  {
    if |s| < 2 then []
    else if s[0] == '$' && IsTokenChar(s[1]) then
      var n := 1 + RunLength(s[1..]);
      [s[..n]] + Tokens(s[n..])
    else Tokens(s[1..])
  }

  /** The text before the first `c` (all of `s` when there is none). */
  function Before(s: string, c: char): (r: string)
    ensures r <= s && c !in r
    ensures c in s ==> |r| < |s| && s[|r|] == c
    ensures c !in s ==> r == s
    decreases |s|
  {
    if s == [] || s[0] == c then [] else [s[0]] + Before(s[1..], c)
  }

  /** The text after the first `c`. */
  function After(s: string, c: char): string
    requires c in s
  {
    s[|Before(s, c)| + 1..]
  }

  /** `name.split(".")[0]` and `name.split(".")[1]` of a dotted token name. */
  function SectionOf(name: string): string
  {
    Before(name, '.')
  }

  function KeyOf(name: string): string
    requires '.' in name
  {
    Before(After(name, '.'), '.')
  }

  /** One step of the rewriting loop: a dotted token whose configuration value is text is
      replaced everywhere in the text; any other token leaves the text alone. */
  function SubstituteToken(text: string, token: string, cfg: Sections): string
    requires IsToken(token)
  {
    var name := token[1..];
    if '.' in name then
      match GetValue(cfg, SectionOf(name), KeyOf(name))
      case Some(Text(value)) => ReplaceAll(text, token, value)
      case _ => text
    else text
  }

  /** The rewriting loop over the tokens in order. */
  function SubstituteAll(text: string, tokens: seq<string>, cfg: Sections): string
    requires forall i :: 0 <= i < |tokens| ==> IsToken(tokens[i])
    decreases |tokens|
  {
    if tokens == [] then text
    else SubstituteToken(SubstituteAll(text, tokens[..|tokens| - 1], cfg), tokens[|tokens| - 1], cfg)
  }

  /** A token that names a text value of the configuration. */
  predicate Resolves(token: string, cfg: Sections)
    requires IsToken(token)
  {
    var name := token[1..];
    '.' in name && GetValue(cfg, SectionOf(name), KeyOf(name)).Some?
    && GetValue(cfg, SectionOf(name), KeyOf(name)).value.Text?
  }

  /** The text `replace_placeholders` gives for some text: the date and time directives are
      expanded first, then the `$section.key` tokens found in the result are rewritten. */
  function Expanded(text: string, strftime: string -> string, cfg: Sections): string
  {
    var dated := strftime(text);
    SubstituteAll(dated, Tokens(dated), cfg)
  }

  /** `replace_placeholders`: no text gives the empty string; otherwise the rewriting loop runs
      over the tokens of the date-expanded text. */
  method ReplacePlaceholders(text: Option<string>, strftime: string -> string, cfg: Sections) returns (r: string)
    ensures text.None? ==> r == ""
    ensures text.Some? ==> r == Expanded(text.value, strftime, cfg)
  {
    if text.None? {
      return "";
    }
    var expanded := strftime(text.value);
    var matches := Tokens(expanded);
    r := expanded;
    var i := 0;
    while i < |matches|
      invariant 0 <= i <= |matches|
      invariant r == SubstituteAll(expanded, matches[..i], cfg)
    {
      assert matches[..i + 1][..i] == matches[..i];
      assert SubstituteAll(expanded, matches[..i + 1], cfg) == SubstituteToken(r, matches[i], cfg);
      var name := matches[i][1..];
      if '.' in name {
        var value := GetValue(cfg, SectionOf(name), KeyOf(name));
        if value.Some? && value.value.Text? {
          r := ReplaceAll(r, matches[i], value.value.s);
        }
      }
      i := i + 1;
    }
    assert matches[..|matches|] == matches;
  }

  /** Only tokens that resolve to configuration text change anything: when none does, the
      rewriting leaves the (date-expanded) text as it is. */
  lemma {:induction false} UnresolvedTokensKeepText(text: string, tokens: seq<string>, cfg: Sections)
    requires forall i :: 0 <= i < |tokens| ==> IsToken(tokens[i])
    requires forall i :: 0 <= i < |tokens| ==> !Resolves(tokens[i], cfg)
    ensures SubstituteAll(text, tokens, cfg) == text
    decreases |tokens|
  {
    if tokens != [] {
      UnresolvedTokensKeepText(text, tokens[..|tokens| - 1], cfg);
    }
  }

  /** Text without a `$` contributes no token. */
  lemma {:induction false} TokensAfterPlain(pre: string, rest: string)
    requires '$' !in pre
    ensures Tokens(pre + rest) == Tokens(rest)
    decreases |pre|
  {
    if pre == [] {
      assert pre + rest == rest;
    } else {
      var s := pre + rest;
      assert s[0] == pre[0] && s[0] != '$';
      assert s[1..] == pre[1..] + rest;
      TokensAfterPlain(pre[1..], rest);
    }
  }

  /** A `$` followed by token characters up to the end is a single token. */
  lemma TokenAlone(name: string)
    requires name != [] && forall i :: 0 <= i < |name| ==> IsTokenChar(name[i])
    ensures Tokens("$" + name) == ["$" + name]
  {
    var s := "$" + name;
    assert s[1..] == name;
    assert RunLength(name) == |name|;
    assert s[..1 + |name|] == s && s[1 + |name|..] == [];
  }

  lemma {:induction false} BeforeJoined(a: string, c: char, b: string)
    requires c !in a
    ensures Before(a + [c] + b, c) == a
    ensures After(a + [c] + b, c) == b
    decreases |a|
  {
    var s := a + [c] + b;
    if a == [] {
      assert s[0] == c && s[1..] == b;
    } else {
      assert s[0] == a[0] && s[0] != c;
      assert s[1..] == a[1..] + [c] + b;
      BeforeJoined(a[1..], c, b);
      assert [a[0]] + a[1..] == a;
    }
  }

  /** A text holding one `$section.key` token after plain text: the token is replaced by the
      configured text (for example `id=$honeypot.sensor` becomes `id=foo` when `sensor` in
      section `honeypot` is `foo`). */
  lemma SingleTokenReplaced(pre: string, section: string, key: string, value: string, cfg: Sections)
    requires '$' !in pre
    requires section != [] && forall i :: 0 <= i < |section| ==> 'a' <= section[i] <= 'z'
    requires key != [] && forall i :: 0 <= i < |key| ==> 'a' <= key[i] <= 'z'
    requires section in cfg && key in cfg[section] && cfg[section][key] == value
    requires value != "true" && value != "false"
    ensures var text := pre + "$" + section + "." + key;
            SubstituteAll(text, Tokens(text), cfg) == pre + value
  {
    var name := section + ['.'] + key;
    var token := "$" + name;
    var text := pre + "$" + section + "." + key;
    assert text == pre + token;
    TokensAfterPlain(pre, token);
    assert forall i :: 0 <= i < |name| ==> IsTokenChar(name[i]) by {
      forall i | 0 <= i < |name|
        ensures IsTokenChar(name[i])
      {
        if i < |section| {
          assert name[i] == section[i];
        } else if i > |section| {
          assert name[i] == key[i - |section| - 1];
        }
      }
    }
    TokenAlone(name);
    var tokens := Tokens(text);
    assert tokens == [token];
    assert tokens[..0] == [];
    assert token[1..] == name;
    assert '.' !in section;
    assert '.' !in key;
    BeforeJoined(section, '.', key);
    assert KeyOf(name) == key;
    ReplaceOnce(pre, token, [], value);
    assert pre + token + [] == pre + token;
  }

  /** A token without a dot is left in the text whatever the configuration holds. */
  lemma DotlessTokenKept(pre: string, name: string, cfg: Sections)
    requires '$' !in pre
    requires name != [] && forall i :: 0 <= i < |name| ==> 'a' <= name[i] <= 'z'
    ensures var text := pre + "$" + name;
            SubstituteAll(text, Tokens(text), cfg) == text
  {
    var token := "$" + name;
    var text := pre + "$" + name;
    assert text == pre + token;
    TokensAfterPlain(pre, token);
    TokenAlone(name);
    var tokens := Tokens(text);
    assert tokens == [token];
    assert tokens[..0] == [];
    assert token[1..] == name;
    assert '.' !in name;
  }

  /** The files `cleanup` removes: lock files, transport-stream segments and temporaries. */
  predicate IsScratch(p: string)
  {
    EndsWith(p, ".lock") || EndsWith(p, ".ts") || EndsWith(p, ".tmp")
  }

  /** `after` keeps some of the files of `before`, each with its content and time stamp. */
  predicate Shrunk(before: map<string, FileEntry>, after: map<string, FileEntry>)
  {
    after.Keys <= before.Keys && forall p :: p in after ==> after[p] == before[p]
  }

  /** Every file of `before` that is not a scratch file of `dir` is still in `after`. */
  predicate KeepsOthers(before: map<string, FileEntry>, after: map<string, FileEntry>, dir: string)
  {
    forall p :: p in before && !(DirName(p) == dir && IsScratch(p)) ==> p in after
  }

  /** No scratch file of `dir` is left, apart from those still `pending`. */
  predicate ScratchGone(files: map<string, FileEntry>, dir: string, pending: set<string>)
  {
    forall p :: p in files && DirName(p) == dir && p !in pending ==> !IsScratch(p)
  }

  /** Every handled lock file of `dir` held a number, and that process no longer runs. */
  predicate LocksReaped(before: map<string, FileEntry>, running: set<nat>, dir: string, pending: set<string>)
  {
    forall p :: p in before && DirName(p) == dir && p !in pending && EndsWith(p, ".lock") ==>
      ParseNat(before[p].content).Some? && ParseNat(before[p].content).value !in running
  }

  /** The process ids held by the lock files of `dir` in `files` that are no longer `pending`. */
  function LockPids(files: map<string, FileEntry>, dir: string, pending: set<string>): set<nat>
  {
    set p | p in files && DirName(p) == dir && p !in pending && EndsWith(p, ".lock") && ParseNat(files[p].content).Some?
      :: ParseNat(files[p].content).value
  }

  /** The process id the file at `path` names: one when it is a lock holding a number. */
  function LockPid(path: string, content: string): set<nat>
  {
    if EndsWith(path, ".lock") && ParseNat(content).Some? then {ParseNat(content).value} else {}
  }

  /** Handling one more file of `dir` adds its process id when it is a lock holding a number. */
  lemma LockPidsStep(files: map<string, FileEntry>, dir: string, pending: set<string>, f: string)
    requires f in pending && f in files && DirName(f) == dir
    ensures LockPids(files, dir, pending - {f}) == LockPids(files, dir, pending) + LockPid(f, files[f].content)
  {
  }

  /** Fewer pending files give more process ids. */
  lemma LockPidsGrow(files: map<string, FileEntry>, dir: string, pending: set<string>)
    ensures LockPids(files, dir, pending) <= LockPids(files, dir, {})
  {
  }

  /** `cleanup`: every file of `ROOT/ul` ending in `.lock`, `.ts` or `.tmp` is deleted; a lock
      file's process is killed first when it is running. A lock file whose content is not a
      number raises, leaving what was already deleted deleted. Nothing else is touched. */
  method Cleanup(host: Host) returns (r: Result<bool>)
    modifies host`files, host`running, host`journal
    ensures Join(host.root, "ul") !in host.dirs ==>
              r.Err? && host.files == old(host.files) && host.running == old(host.running)
    ensures Shrunk(old(host.files), host.files)
    ensures KeepsOthers(old(host.files), host.files, Join(host.root, "ul"))
    ensures host.running <= old(host.running)
    ensures old(host.running) - host.running <= LockPids(old(host.files), Join(host.root, "ul"), {})
    ensures r.Ok? ==> host.running == old(host.running) - LockPids(old(host.files), Join(host.root, "ul"), {})
    ensures r.Ok? ==> ScratchGone(host.files, Join(host.root, "ul"), {})
    ensures r.Ok? ==> LocksReaped(old(host.files), host.running, Join(host.root, "ul"), {})
    ensures old(host.journal) <= host.journal
  {
    var lockDir := Join(host.root, "ul");
    if lockDir !in host.dirs {
      return Err("FileNotFoundError");
    }
    var remaining := set p | p in host.files && DirName(p) == lockDir;
    while remaining != {}
      invariant Sweeping(old(host.files), old(host.running), host.files, host.running, lockDir, remaining)
      invariant old(host.journal) <= host.journal
      decreases remaining
    {
      var fullPath :| fullPath in remaining;
      var ok := Sweep(host, lockDir, fullPath, old(host.files), old(host.running), remaining);
      if !ok {
        LockPidsGrow(old(host.files), lockDir, remaining);
        return Err("ValueError");
      }
      remaining := remaining - {fullPath};
    }
    r := Ok(true);
  }

  /** What the sweep of `dir` keeps true: the files still to look at are files of `dir`, and
      every file already looked at is handled. */
  ghost predicate Sweeping(files0: map<string, FileEntry>, running0: set<nat>, files: map<string, FileEntry>,
                           running: set<nat>, dir: string, remaining: set<string>)
  {
    remaining <= files.Keys
    && (forall p :: p in remaining ==> DirName(p) == dir)
    && Shrunk(files0, files)
    && KeepsOthers(files0, files, dir)
    && ScratchGone(files, dir, remaining)
    && running == running0 - LockPids(files0, dir, remaining)
    && LocksReaped(files0, running, dir, remaining)
  }

  /** One turn of the sweep: `fullPath`'s process is killed when it is a lock naming a running
      one, and the file is deleted when it is a scratch file. `ok` is false when a lock does not
      hold a number. */
  method Sweep(host: Host, dir: string, fullPath: string, ghost files0: map<string, FileEntry>,
               ghost running0: set<nat>, ghost remaining: set<string>) returns (ok: bool)
    requires fullPath in remaining
    requires Sweeping(files0, running0, host.files, host.running, dir, remaining)
    modifies host`files, host`running, host`journal
    ensures ok ==> Sweeping(files0, running0, host.files, host.running, dir, remaining - {fullPath})
    ensures !ok ==> host.files == old(host.files) && host.running == old(host.running)
    ensures old(host.journal) <= host.journal
  {
    LockPidsStep(files0, dir, remaining, fullPath);
    ok := Reap(host, fullPath);
    if !ok {
      return;
    }
    if IsScratch(fullPath) {
      host.files := host.files - {fullPath};
    }
  }

  /** The lock part of a turn of the sweep: a lock file's process is killed when it runs; a lock
      that does not hold a number stops the sweep. */
  method Reap(host: Host, fullPath: string) returns (ok: bool)
    requires fullPath in host.files
    modifies host`running, host`journal
    ensures ok <==> !EndsWith(fullPath, ".lock") || ParseNat(host.files[fullPath].content).Some?
    ensures host.running == old(host.running) - LockPid(fullPath, host.files[fullPath].content)
    ensures old(host.journal) <= host.journal
  {
    ok := true;
    if EndsWith(fullPath, ".lock") {
      var pid := ParseNat(host.files[fullPath].content);
      if pid.None? {
        return false;
      }
      if pid.value in host.running {
        host.running := host.running - {pid.value};
        var message := "Found old lockfile " + fullPath + " and killed PID " + NatToString(pid.value);
        host.journal := host.journal + [Logging.WrapperCall(Logging.EventRemovedLock, message, None, false)];
      }
    }
  }
}
