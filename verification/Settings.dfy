/** Instance settings (internal/settings): validated patches that build a list of
    changes against a snapshot, then write each key together with its audit row. */
module Settings {
  import opened Prelude

  datatype Key =
    | InstanceName
    | MfaRequired | PasswordMinLength | PasswordRequireUpper | PasswordRequireDigit
    | LockoutThreshold | LockoutDurationSecs
    | AccessTokenTtlSecs | RefreshTokenTtlSecs
    | SmtpHost | SmtpPort | SmtpUsername | SmtpFrom | SmtpPassword

  datatype Value = Flag(flag: bool) | Number(number: int) | Text(text: string)

  /** The snapshot: one value per key (an unset string reads as ""). */
  type Config = map<Key, Value>

  ghost predicate Complete(c: Config) {
    forall k: Key :: k in c
  }

  /** The smtp_password row says only that it changed. */
  datatype Meta = Pair(oldValue: Value, newValue: Value) | Masked

  /** An audit row config.<key>.changed. */
  datatype Row = Row(key: Key, meta: Meta)

  datatype Change = Change(row: Row, value: Value)

  datatype Patch =
    | General(name: string)
    | Security(mfa: Option<bool>, minLength: Option<int>, upper: Option<bool>, digit: Option<bool>,
               threshold: Option<int>, duration: Option<int>)
    | Tokens(access: Option<int>, refresh: Option<int>)
    | Email(host: Option<string>, port: Option<int>, username: Option<string>, from: Option<string>,
            password: Option<string>)

  // ----- validation -----

  /** unicode.IsSpace. */
  predicate IsSpace(c: char) {
    c in {'\t', '\n', '\U{0B}', '\U{0C}', '\r', ' ', '\U{85}', '\U{A0}', '\U{1680}', '\U{2028}', '\U{2029}',
          '\U{202F}', '\U{205F}', '\U{3000}'} || '\U{2000}' <= c <= '\U{200A}'
  }

  /** strings.TrimSpace. */
  function TrimSpace(s: string): string {
    if s == "" then ""
    else if IsSpace(s[0]) then TrimSpace(s[1..])
    else if IsSpace(s[|s| - 1]) then TrimSpace(s[..|s| - 1])
    else s
  }

  /** len(s): the length in UTF-8 bytes. */
  function ByteLen(s: string): nat {
    if s == "" then 0
    else
      var bytes := if s[0] < '\U{80}' then 1 else if s[0] < '\U{800}' then 2 else if s[0] < '\U{10000}' then 3 else 4;
      ByteLen(s[1..]) + bytes
  }

  /** strings.ContainsAny(s, "\r\n\x00"). */
  predicate HasLineBreak(s: string) {
    exists c :: c in s && c in {'\r', '\n', '\0'}
  }

  predicate InRange(v: Option<int>, lo: int, hi: int) {
    v.Some? ==> lo <= v.value <= hi
  }

  /** The Validate... functions. `parses` is the verdict of net/mail on smtp_from. */
  predicate Valid(p: Patch, parses: bool) {
    match p
    case General(name) =>
      var n := TrimSpace(name);
      n != "" && ByteLen(n) <= 64 && !HasLineBreak(n)
    case Security(_, minLength, _, _, threshold, duration) =>
      InRange(minLength, 8, 128) && InRange(threshold, 1, 50) && InRange(duration, 60, 86_400)
    case Tokens(access, refresh) => InRange(access, 300, 3600) && InRange(refresh, 3600, 604_800)
    case Email(host, port, username, from, _) =>
      && (host.Some? ==> TrimSpace(host.value) != "" && ByteLen(TrimSpace(host.value)) <= 253)
      && InRange(port, 1, 65_535)
      && (username.Some? ==> ByteLen(username.value) <= 320)
      && (from.Some? ==> TrimSpace(from.value) != "" && !HasLineBreak(TrimSpace(from.value)) && parses)
  }

  // ----- what a patch asks for -----

  /** A field of the request; None is a field left out. */
  datatype Want = Want(key: Key, value: Option<Value>)

  function OfFlag(v: Option<bool>): Option<Value> {
    if v.Some? then Some(Flag(v.value)) else None
  }

  function OfNumber(v: Option<int>): Option<Value> {
    if v.Some? then Some(Number(v.value)) else None
  }

  function OfText(v: Option<string>): Option<Value> {
    if v.Some? then Some(Text(v.value)) else None
  }

  function Trimmed(v: Option<string>): Option<Value> {
    if v.Some? then Some(Text(TrimSpace(v.value))) else None
  }

  /** An empty password keeps the current one. */
  function OfPassword(v: Option<string>): Option<Value> {
    if v.Some? && v.value != "" then Some(Text(v.value)) else None
  }

  function Wanted(p: Patch): seq<Want> {
    match p
    case General(name) => [Want(InstanceName, Some(Text(TrimSpace(name))))]
    case Security(mfa, minLength, upper, digit, threshold, duration) =>
      [Want(MfaRequired, OfFlag(mfa)), Want(PasswordMinLength, OfNumber(minLength)),
       Want(PasswordRequireUpper, OfFlag(upper)), Want(PasswordRequireDigit, OfFlag(digit)),
       Want(LockoutThreshold, OfNumber(threshold)), Want(LockoutDurationSecs, OfNumber(duration))]
    case Tokens(access, refresh) =>
      [Want(AccessTokenTtlSecs, OfNumber(access)), Want(RefreshTokenTtlSecs, OfNumber(refresh))]
    case Email(host, port, username, from, password) =>
      [Want(SmtpHost, Trimmed(host)), Want(SmtpPort, OfNumber(port)), Want(SmtpUsername, OfText(username)),
       Want(SmtpFrom, Trimmed(from)), Want(SmtpPassword, OfPassword(password))]
  }

  // ----- the change list, and saving it -----

  /** The change one wanted value makes, if any. */
  function One(pre: Config, w: Want): Option<Change> {
    if w.value.None? then None
    else if w.key == SmtpPassword then Some(Change(Row(w.key, Masked), w.value.value))
    else if w.key in pre && w.value.value != pre[w.key]
      then Some(Change(Row(w.key, Pair(pre[w.key], w.value.value)), w.value.value))
    else None
  }

  /** The changes of the first n wanted values. */
  function Diff(pre: Config, ws: seq<Want>, n: nat): seq<Change>
    requires n <= |ws|
  {
    if n == 0 then []
    else match One(pre, ws[n - 1])
      case None => Diff(pre, ws, n - 1)
      case Some(c) => Diff(pre, ws, n - 1) + [c]
  }

  function Changes(pre: Config, p: Patch): seq<Change> {
    Diff(pre, Wanted(p), |Wanted(p)|)
  }

  function Write(c: Config, cs: seq<Change>): Config {
    if cs == [] then c else Write(c, cs[..|cs| - 1])[cs[|cs| - 1].row.key := cs[|cs| - 1].value]
  }

  function Rows(cs: seq<Change>): seq<Row> {
    if cs == [] then [] else Rows(cs[..|cs| - 1]) + [cs[|cs| - 1].row]
  }

  datatype State = State(config: Config, log: seq<Row>)

  function Patched(s: State, p: Patch, parses: bool): State {
    if !Valid(p, parses) then s
    else
      var cs := Changes(s.config, p);
      State(Write(s.config, cs), s.log + Rows(cs))
  }

  class SettingsHandler {
    var config: Config
    var log: seq<Row>

    ghost function View(): State
      reads this
    {
      State(config, log)
    }

    constructor (config: Config)
      ensures View() == State(config, [])
    {
      this.config := config;
      log := [];
    }

    /** Notes a change when the field is given and differs from the snapshot. */
    method Note(pre: Config, ghost ws: seq<Want>, ghost i: nat, changes: seq<Change>, k: Key, v: Option<Value>)
      returns (out: seq<Change>)
      requires k != SmtpPassword && k in pre
      requires i < |ws| && ws[i] == Want(k, v) && changes == Diff(pre, ws, i)
      ensures out == Diff(pre, ws, i + 1)
    {
      out := changes;
      if v.Some? && v.value != pre[k] {
        out := out + [Change(Row(k, Pair(pre[k], v.value)), v.value)];
      }
    }

    /** The transaction: for each change, write the key and log its row. */
    method Save(changes: seq<Change>)
      modifies this
      ensures config == Write(old(config), changes) && log == old(log) + Rows(changes)
    {
      for i := 0 to |changes|
        invariant config == Write(old(config), changes[..i])
        invariant log == old(log) + Rows(changes[..i])
      {
        var c := changes[i];
        assert changes[..i + 1][..i] == changes[..i];
        config := config[c.row.key := c.value];
        log := log + [c.row];
      }
      assert changes[..|changes|] == changes;
    }

    method PatchGeneral(p: Patch) returns (ok: bool)
      requires p.General? && InstanceName in config
      modifies this
      ensures ok <==> Valid(p, true)
      ensures View() == Patched(old(View()), p, true)
    {
      if !Valid(p, true) {
        return false;
      }
      SaveName(p, Text(TrimSpace(p.name)));
      return true;
    }

    method SaveName(ghost p: Patch, newName: Value)
      requires InstanceName in config && Wanted(p) == [Want(InstanceName, Some(newName))]
      modifies this
      ensures config == Write(old(config), Changes(old(config), p))
      ensures log == old(log) + Rows(Changes(old(config), p))
    {
      var oldName := config[InstanceName];
      ghost var ws := Wanted(p);
      assert Diff(config, ws, 0) == [];
      if newName == oldName {
        return;
      }
      var row := Row(InstanceName, Pair(oldName, newName));
      SingleChange(config, row, newName);
      config := config[InstanceName := newName];
      log := log + [row];
    }

    method PatchSecurity(p: Patch) returns (ok: bool)
      requires p.Security? && Complete(config)
      modifies this
      ensures ok <==> Valid(p, true)
      ensures View() == Patched(old(View()), p, true)
    {
      if !Valid(p, true) {
        return false;
      }
      var pre := config;
      ghost var ws := Wanted(p);
      var changes := [];
      changes := Note(pre, ws, 0, changes, MfaRequired, OfFlag(p.mfa));
      changes := Note(pre, ws, 1, changes, PasswordMinLength, OfNumber(p.minLength));
      changes := Note(pre, ws, 2, changes, PasswordRequireUpper, OfFlag(p.upper));
      changes := Note(pre, ws, 3, changes, PasswordRequireDigit, OfFlag(p.digit));
      changes := Note(pre, ws, 4, changes, LockoutThreshold, OfNumber(p.threshold));
      changes := Note(pre, ws, 5, changes, LockoutDurationSecs, OfNumber(p.duration));
      Save(changes);
      return true;
    }

    method PatchTokens(p: Patch) returns (ok: bool)
      requires p.Tokens? && Complete(config)
      modifies this
      ensures ok <==> Valid(p, true)
      ensures View() == Patched(old(View()), p, true)
    {
      if !Valid(p, true) {
        return false;
      }
      var pre := config;
      ghost var ws := Wanted(p);
      var changes := [];
      changes := Note(pre, ws, 0, changes, AccessTokenTtlSecs, OfNumber(p.access));
      changes := Note(pre, ws, 1, changes, RefreshTokenTtlSecs, OfNumber(p.refresh));
      Save(changes);
      return true;
    }

    method PatchEmail(p: Patch, parses: bool) returns (ok: bool)
      requires p.Email? && Complete(config)
      modifies this
      ensures ok <==> Valid(p, parses)
      ensures View() == Patched(old(View()), p, parses)
    {
      if !Valid(p, parses) {
        return false;
      }
      var changes := EmailChanges(config, p, Trimmed(p.host), Trimmed(p.from));
      Save(changes);
      return true;
    }

    method EmailChanges(pre: Config, p: Patch, host: Option<Value>, from: Option<Value>) returns (changes: seq<Change>)
      requires p.Email? && Complete(pre) && host == Trimmed(p.host) && from == Trimmed(p.from)
      ensures changes == Changes(pre, p)
    {
      ghost var ws := Wanted(p);
      changes := [];
      changes := Note(pre, ws, 0, changes, SmtpHost, host);
      changes := Note(pre, ws, 1, changes, SmtpPort, OfNumber(p.port));
      changes := Note(pre, ws, 2, changes, SmtpUsername, OfText(p.username));
      changes := Note(pre, ws, 3, changes, SmtpFrom, from);
      if p.password.Some? && p.password.value != "" {
        changes := changes + [Change(Row(SmtpPassword, Masked), Text(p.password.value))];
      }
    }
  }

  lemma SingleChange(c: Config, row: Row, v: Value)
    ensures Write(c, [Change(row, v)]) == c[row.key := v]
    ensures Rows([Change(row, v)]) == [row]
  {
    assert [Change(row, v)][..0] == [];
  }
}
