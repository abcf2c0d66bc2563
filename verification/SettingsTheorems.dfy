/** The audit log replays to the configuration. */
module SettingsTheorems {
  import opened Prelude
  import opened Settings
  import World

  /** Folding the rows over a snapshot; a masked row says nothing about its value. */
  function Replay(c: Config, log: seq<Row>): Config {
    if log == [] then c
    else
      var row := log[|log| - 1];
      var before := Replay(c, log[..|log| - 1]);
      if row.meta.Pair? then before[row.key := row.meta.newValue] else before
  }

  /** Equal but for smtp_password. */
  ghost predicate Agree(a: Config, b: Config) {
    forall k: Key :: k != SmtpPassword ==> k in a && k in b && a[k] == b[k]
  }

  ghost predicate Distinct(ws: seq<Want>) {
    forall i, j :: 0 <= i < j < |ws| ==> ws[i].key != ws[j].key
  }

  lemma WantedDistinct(p: Patch)
    ensures Distinct(Wanted(p))
  {
  }

  // ----- one patch: what the change list does -----

  /** The reference: the first n wanted values are simply written. */
  function Overlay(c: Config, ws: seq<Want>, n: nat): Config
    requires n <= |ws|
  {
    if n == 0 then c
    else
      var before, w := Overlay(c, ws, n - 1), ws[n - 1];
      if w.value.Some? then before[w.key := w.value.value] else before
  }

  lemma {:induction false} OverlayElsewhere(c: Config, ws: seq<Want>, n: nat, k: Key)
    requires n <= |ws| && Complete(c) && forall i :: 0 <= i < n ==> ws[i].key != k
    ensures Complete(Overlay(c, ws, n)) && Overlay(c, ws, n)[k] == c[k]
  {
    if n > 0 {
      OverlayElsewhere(c, ws, n - 1, k);
    }
  }

  /** Writing only the differences gives the same configuration as writing everything. */
  lemma {:induction false} DiffWritesAll(c: Config, ws: seq<Want>, n: nat)
    requires n <= |ws| && Complete(c) && Distinct(ws)
    ensures Write(c, Diff(c, ws, n)) == Overlay(c, ws, n)
  {
    if n > 0 {
      DiffWritesAll(c, ws, n - 1);
      OverlayElsewhere(c, ws, n - 1, ws[n - 1].key);
      WriteOne(c, Diff(c, ws, n - 1), ws[n - 1]);
    }
  }

  lemma WriteOne(c: Config, cs: seq<Change>, w: Want)
    requires Complete(c) && w.key in Write(c, cs) && Write(c, cs)[w.key] == c[w.key]
    ensures var after := if w.value.Some? then Write(c, cs)[w.key := w.value.value] else Write(c, cs);
            match One(c, w)
            case None => Write(c, cs) == after
            case Some(ch) => Write(c, cs + [ch]) == after
  {
    if One(c, w).Some? {
      WriteMore(c, cs, One(c, w).value);
    }
  }

  lemma WriteMore(c: Config, cs: seq<Change>, ch: Change)
    ensures Write(c, cs + [ch]) == Write(c, cs)[ch.row.key := ch.value]
  {
    assert (cs + [ch])[..|cs|] == cs;
  }

  // ----- rows are faithful -----

  /** The row names the value it replaces in `before`, and a different one. */
  ghost predicate RowOk(before: Config, row: Row) {
    && (row.meta.Masked? <==> row.key == SmtpPassword)
    && (row.meta.Pair? ==>
          && row.key in before && row.meta.oldValue == before[row.key]
          && row.meta.oldValue != row.meta.newValue)
  }

  /** Every row names the value it replaced. */
  ghost predicate LogOk(c: Config, log: seq<Row>) {
    log == [] || (LogOk(c, log[..|log| - 1]) && RowOk(Replay(c, log[..|log| - 1]), log[|log| - 1]))
  }

  lemma LogGrows(c: Config, log: seq<Row>, row: Row)
    requires LogOk(c, log) && RowOk(Replay(c, log), row)
    ensures LogOk(c, log + [row])
  {
    assert (log + [row])[..|log|] == log;
  }

  lemma {:induction false} LogOkAt(c: Config, log: seq<Row>, i: nat)
    requires LogOk(c, log) && i < |log|
    ensures RowOk(Replay(c, log[..i]), log[i])
  {
    if i < |log| - 1 {
      LogOkAt(c, log[..|log| - 1], i);
      assert log[..|log| - 1][..i] == log[..i];
    }
  }

  /** Appending a patch's rows keeps log and configuration in step. */
  lemma {:induction false} DiffLogged(c0: Config, s: State, ws: seq<Want>, n: nat)
    requires n <= |ws| && Complete(s.config) && Distinct(ws)
    requires LogOk(c0, s.log) && Agree(Replay(c0, s.log), s.config)
    ensures var cs := Diff(s.config, ws, n);
            var log := s.log + Rows(cs);
            LogOk(c0, log) && Agree(Replay(c0, log), Write(s.config, cs))
  {
    if n == 0 {
      assert s.log + [] == s.log;
    } else {
      var w, before := ws[n - 1], Diff(s.config, ws, n - 1);
      DiffLogged(c0, s, ws, n - 1);
      DiffWritesAll(s.config, ws, n - 1);
      OverlayElsewhere(s.config, ws, n - 1, w.key);
      if One(s.config, w).Some? {
        LogOneMore(c0, s, before, One(s.config, w).value);
      }
    }
  }

  lemma LogOneMore(c0: Config, s: State, before: seq<Change>, ch: Change)
    requires LogOk(c0, s.log + Rows(before)) && Agree(Replay(c0, s.log + Rows(before)), Write(s.config, before))
    requires RowOk(Write(s.config, before), ch.row) && (ch.row.meta.Pair? ==> ch.row.meta.newValue == ch.value)
    ensures LogOk(c0, s.log + Rows(before + [ch]))
    ensures Agree(Replay(c0, s.log + Rows(before + [ch])), Write(s.config, before + [ch]))
  {
    WriteMore(s.config, before, ch);
    RowsMore(s.log, before, ch);
    LogStep(c0, s.log + Rows(before), Write(s.config, before), ch);
  }

  lemma RowsMore(log: seq<Row>, before: seq<Change>, ch: Change)
    ensures log + Rows(before + [ch]) == (log + Rows(before)) + [ch.row]
  {
    assert (before + [ch])[..|before|] == before;
  }

  lemma LogStep(c0: Config, log: seq<Row>, c: Config, ch: Change)
    requires LogOk(c0, log) && Agree(Replay(c0, log), c)
    requires RowOk(c, ch.row) && (ch.row.meta.Pair? ==> ch.row.meta.newValue == ch.value)
    ensures LogOk(c0, log + [ch.row]) && Agree(Replay(c0, log + [ch.row]), c[ch.row.key := ch.value])
  {
    RowOkAgrees(c, Replay(c0, log), ch.row);
    LogGrows(c0, log, ch.row);
    ReplayMore(c0, log, ch.row);
  }

  lemma RowOkAgrees(a: Config, b: Config, row: Row)
    requires RowOk(a, row) && Agree(b, a)
    ensures RowOk(b, row)
  {
  }

  lemma ReplayMore(c: Config, log: seq<Row>, row: Row)
    ensures Replay(c, log + [row]) ==
            if row.meta.Pair? then Replay(c, log)[row.key := row.meta.newValue] else Replay(c, log)
  {
    assert (log + [row])[..|log|] == log;
  }

  // ----- ranges -----

  predicate NumberIn(v: Value, lo: int, hi: int) {
    v.Number? && lo <= v.number <= hi
  }

  /** What validation lets through under a key. */
  predicate Fits(k: Key, v: Value) {
    match k
    case InstanceName => v.Text? && v.text != "" && ByteLen(v.text) <= 64 && !HasLineBreak(v.text)
    case PasswordMinLength => NumberIn(v, 8, 128)
    case LockoutThreshold => NumberIn(v, 1, 50)
    case LockoutDurationSecs => NumberIn(v, 60, 86_400)
    case AccessTokenTtlSecs => NumberIn(v, 300, 3600)
    case RefreshTokenTtlSecs => NumberIn(v, 3600, 604_800)
    case SmtpHost => v.Text? && v.text != "" && ByteLen(v.text) <= 253
    case SmtpPort => NumberIn(v, 1, 65_535)
    case SmtpUsername => v.Text? && ByteLen(v.text) <= 320
    case SmtpFrom => v.Text? && v.text != "" && !HasLineBreak(v.text)
    case SmtpPassword => v.Text? && v.text != ""
    case _ => v.Flag?
  }

  ghost predicate AllFit(ws: seq<Want>) {
    forall i :: 0 <= i < |ws| ==> (ws[i].value.Some? ==> Fits(ws[i].key, ws[i].value.value))
  }

  /** A patch is valid exactly when each value it gives fits its key, and a given sender
      address parses. */
  lemma ValidIff(p: Patch, parses: bool)
    ensures Valid(p, parses) <==> AllFit(Wanted(p)) && (p.Email? && p.from.Some? ==> parses)
  {
    var ws := Wanted(p);
    assert forall i :: 0 <= i < |ws| && ws[i].value.Some? && AllFit(ws) ==> Fits(ws[i].key, ws[i].value.value);
    match p
    case General(_) => assert AllFit(ws) ==> Fits(ws[0].key, ws[0].value.value);
    case Security(_, _, _, _, _, _) => SecurityFits(p);
    case Tokens(_, _) => assert ws[0].key == AccessTokenTtlSecs && ws[1].key == RefreshTokenTtlSecs;
    case Email(_, _, _, _, _) => EmailFits(p);
  }

  lemma SecurityFits(p: Patch)
    requires p.Security?
    ensures AllFit(Wanted(p)) <==>
              InRange(p.minLength, 8, 128) && InRange(p.threshold, 1, 50) && InRange(p.duration, 60, 86_400)
  {
    var ws := Wanted(p);
    assert ws[1].key == PasswordMinLength && ws[4].key == LockoutThreshold && ws[5].key == LockoutDurationSecs;
  }

  lemma EmailFits(p: Patch)
    requires p.Email?
    ensures AllFit(Wanted(p)) <==>
              && (p.host.Some? ==> Fits(SmtpHost, Text(TrimSpace(p.host.value))))
              && InRange(p.port, 1, 65_535)
              && (p.username.Some? ==> ByteLen(p.username.value) <= 320)
              && (p.from.Some? ==> Fits(SmtpFrom, Text(TrimSpace(p.from.value))))
  {
    var ws := Wanted(p);
    assert ws[0].key == SmtpHost && ws[1].key == SmtpPort && ws[2].key == SmtpUsername && ws[3].key == SmtpFrom;
  }

  /** Key by key: a valid overlay leaves a setting alone or gives it a fitting value. */
  lemma {:induction false} OverlayFits(c: Config, ws: seq<Want>, n: nat, k: Key)
    requires n <= |ws| && Complete(c) && AllFit(ws)
    ensures k in Overlay(c, ws, n) && (Overlay(c, ws, n)[k] == c[k] || Fits(k, Overlay(c, ws, n)[k]))
  {
    if n > 0 {
      OverlayFits(c, ws, n - 1, k);
    }
  }

  // ----- main results -----

  /** One valid patch is an overlay of the wanted values ... */
  lemma PatchIsOverlay(s: State, p: Patch, parses: bool)
    requires Complete(s.config) && Valid(p, parses)
    ensures Patched(s, p, parses).config == Overlay(s.config, Wanted(p), |Wanted(p)|)
  {
    WantedDistinct(p);
    DiffWritesAll(s.config, Wanted(p), |Wanted(p)|);
  }

  ghost predicate SameBut(a: Config, b: Config, keys: set<Key>) {
    forall k: Key :: k !in keys ==> k in a && k in b && a[k] == b[k]
  }

  /** Field by field: after a valid patch each setting has the value of its own field, or
      its old one when the field is left out, and no other setting moves. */
  lemma PatchGeneralSets(s: State, name: string)
    requires Complete(s.config) && Valid(General(name), true)
    ensures var c := Patched(s, General(name), true).config;
            Complete(c) && SameBut(c, s.config, {InstanceName}) && c[InstanceName] == Text(TrimSpace(name))
  {
    var p := General(name);
    PatchIsOverlay(s, p, true);
    PatchedComplete(s, p, true);
    assert Overlay(s.config, Wanted(p), 1) == s.config[InstanceName := Text(TrimSpace(name))];
  }

  lemma PatchTokensSets(s: State, p: Patch)
    requires p.Tokens? && Complete(s.config) && Valid(p, true)
    ensures var c, was := Patched(s, p, true).config, s.config;
            && Complete(c) && SameBut(c, was, {AccessTokenTtlSecs, RefreshTokenTtlSecs})
            && c[AccessTokenTtlSecs] == (if p.access.Some? then Number(p.access.value) else was[AccessTokenTtlSecs])
            && c[RefreshTokenTtlSecs] == (if p.refresh.Some? then Number(p.refresh.value) else was[RefreshTokenTtlSecs])
  {
    PatchIsOverlay(s, p, true);
    PatchedComplete(s, p, true);
    OverlayAt(s.config, Wanted(p));
    WantedDistinct(p);
    assert Wanted(p)[0].key == AccessTokenTtlSecs && Wanted(p)[1].key == RefreshTokenTtlSecs;
  }

  lemma PatchSecuritySets(s: State, p: Patch)
    requires p.Security? && Complete(s.config) && Valid(p, true)
    ensures var c, was := Patched(s, p, true).config, s.config;
            && Complete(c)
            && SameBut(c, was, {MfaRequired, PasswordMinLength, PasswordRequireUpper, PasswordRequireDigit,
                                 LockoutThreshold, LockoutDurationSecs})
            && c[MfaRequired] == (if p.mfa.Some? then Flag(p.mfa.value) else was[MfaRequired])
            && c[PasswordMinLength] == (if p.minLength.Some? then Number(p.minLength.value) else was[PasswordMinLength])
            && c[PasswordRequireUpper] == (if p.upper.Some? then Flag(p.upper.value) else was[PasswordRequireUpper])
            && c[PasswordRequireDigit] == (if p.digit.Some? then Flag(p.digit.value) else was[PasswordRequireDigit])
            && c[LockoutThreshold] == (if p.threshold.Some? then Number(p.threshold.value) else was[LockoutThreshold])
            && c[LockoutDurationSecs] ==
               (if p.duration.Some? then Number(p.duration.value) else was[LockoutDurationSecs])
  {
    PatchIsOverlay(s, p, true);
    SecurityOverlay(s.config, Wanted(p));
    var ws := Wanted(p);
    assert ws[0].value == OfFlag(p.mfa) && ws[1].value == OfNumber(p.minLength) && ws[2].value == OfFlag(p.upper);
    assert ws[3].value == OfFlag(p.digit) && ws[4].value == OfNumber(p.threshold);
    assert ws[5].value == OfNumber(p.duration);
  }

  lemma SecurityOverlay(c: Config, ws: seq<Want>)
    requires Complete(c) && |ws| == 6 && ws[0].key == MfaRequired && ws[1].key == PasswordMinLength
    requires ws[2].key == PasswordRequireUpper && ws[3].key == PasswordRequireDigit
    requires ws[4].key == LockoutThreshold && ws[5].key == LockoutDurationSecs
    ensures var c' := Overlay(c, ws, 6);
            && Complete(c')
            && SameBut(c', c, {MfaRequired, PasswordMinLength, PasswordRequireUpper, PasswordRequireDigit,
                               LockoutThreshold, LockoutDurationSecs})
            && forall i :: 0 <= i < 6 ==> c'[ws[i].key] == if ws[i].value.Some? then ws[i].value.value else c[ws[i].key]
  {
    OverlayAt(c, ws);
  }

  lemma PatchEmailSets(s: State, p: Patch, parses: bool)
    requires p.Email? && Complete(s.config) && Valid(p, parses)
    ensures var c, was := Patched(s, p, parses).config, s.config;
            && Complete(c) && SameBut(c, was, {SmtpHost, SmtpPort, SmtpUsername, SmtpFrom, SmtpPassword})
            && c[SmtpHost] == (if p.host.Some? then Text(TrimSpace(p.host.value)) else was[SmtpHost])
            && c[SmtpPort] == (if p.port.Some? then Number(p.port.value) else was[SmtpPort])
            && c[SmtpUsername] == (if p.username.Some? then Text(p.username.value) else was[SmtpUsername])
            && c[SmtpFrom] == (if p.from.Some? then Text(TrimSpace(p.from.value)) else was[SmtpFrom])
            && c[SmtpPassword] == (if p.password.Some? && p.password.value != "" then Text(p.password.value)
                                   else was[SmtpPassword])
  {
    PatchIsOverlay(s, p, parses);
    EmailKeys(p);
    EmailOverlay(s.config, Wanted(p));
  }

  lemma EmailOverlay(c: Config, ws: seq<Want>)
    requires Complete(c) && |ws| == 5 && ws[0].key == SmtpHost && ws[1].key == SmtpPort && ws[2].key == SmtpUsername
    requires ws[3].key == SmtpFrom && ws[4].key == SmtpPassword
    ensures var c' := Overlay(c, ws, 5);
            && Complete(c') && SameBut(c', c, {SmtpHost, SmtpPort, SmtpUsername, SmtpFrom, SmtpPassword})
            && forall i :: 0 <= i < 5 ==> c'[ws[i].key] == if ws[i].value.Some? then ws[i].value.value else c[ws[i].key]
  {
    OverlayAt(c, ws);
  }

  lemma EmailKeys(p: Patch)
    requires p.Email?
    ensures var ws := Wanted(p);
            && |ws| == 5
            && ws[0] == Want(SmtpHost, if p.host.Some? then Some(Text(TrimSpace(p.host.value))) else None)
            && ws[1] == Want(SmtpPort, if p.port.Some? then Some(Number(p.port.value)) else None)
            && ws[2] == Want(SmtpUsername, if p.username.Some? then Some(Text(p.username.value)) else None)
            && ws[3] == Want(SmtpFrom, if p.from.Some? then Some(Text(TrimSpace(p.from.value))) else None)
            && ws[4].key == SmtpPassword
            && ws[4].value ==
               (if p.password.Some? && p.password.value != "" then Some(Text(p.password.value)) else None)
  {
  }

  /** An overlay of distinct keys, key by key. */
  lemma OverlayAt(c: Config, ws: seq<Want>)
    requires Complete(c) && Distinct(ws)
    ensures var c' := Overlay(c, ws, |ws|);
            && Complete(c')
            && (forall i :: 0 <= i < |ws| ==>
                              c'[ws[i].key] == if ws[i].value.Some? then ws[i].value.value else c[ws[i].key])
            && (forall k: Key :: (forall i :: 0 <= i < |ws| ==> ws[i].key != k) ==> c'[k] == c[k])
  {
    OverlayUpTo(c, ws, |ws|);
  }

  lemma {:induction false} OverlayUpTo(c: Config, ws: seq<Want>, n: nat)
    requires n <= |ws| && Complete(c) && Distinct(ws)
    ensures var c' := Overlay(c, ws, n);
            && Complete(c')
            && (forall i :: 0 <= i < n ==>
                              c'[ws[i].key] == if ws[i].value.Some? then ws[i].value.value else c[ws[i].key])
            && (forall k: Key :: (forall i :: 0 <= i < n ==> ws[i].key != k) ==> c'[k] == c[k])
  {
    if n > 0 {
      OverlayUpTo(c, ws, n - 1);
    }
  }

  /** s[i..j] is s without leading and trailing spaces. */
  ghost predicate IsTrimmed(s: string, i: nat, j: nat) {
    && i <= j <= |s|
    && (forall k :: 0 <= k < i ==> IsSpace(s[k])) && (forall k :: j <= k < |s| ==> IsSpace(s[k]))
    && (i < j ==> !IsSpace(s[i]) && !IsSpace(s[j - 1]))
  }

  lemma TrimmedFront(s: string, i: nat, j: nat)
    requires s != "" && IsSpace(s[0]) && IsTrimmed(s[1..], i, j)
    ensures IsTrimmed(s, i + 1, j + 1) && s[1..][i..j] == s[i + 1..j + 1]
  {
    assert forall k :: 1 <= k < |s| ==> s[k] == s[1..][k - 1];
  }

  lemma TrimmedBack(s: string, i: nat, j: nat)
    requires s != "" && IsSpace(s[|s| - 1]) && IsTrimmed(s[..|s| - 1], i, j)
    ensures IsTrimmed(s, i, j) && s[..|s| - 1][i..j] == s[i..j]
  {
    assert forall k :: 0 <= k < |s| - 1 ==> s[k] == s[..|s| - 1][k];
  }

  /** strings.TrimSpace: what is left starts and ends with no space, and only spaces went. */
  lemma {:induction false} TrimSpaceExact(s: string)
    ensures exists i: nat, j: nat :: IsTrimmed(s, i, j) && TrimSpace(s) == s[i..j]
    decreases |s|
  {
    if s == "" {
      assert IsTrimmed(s, 0, 0);
    } else if IsSpace(s[0]) {
      TrimSpaceExact(s[1..]);
      var i: nat, j: nat :| IsTrimmed(s[1..], i, j) && TrimSpace(s[1..]) == s[1..][i..j];
      TrimmedFront(s, i, j);
    } else if IsSpace(s[|s| - 1]) {
      TrimSpaceExact(s[..|s| - 1]);
      var i: nat, j: nat :| IsTrimmed(s[..|s| - 1], i, j) && TrimSpace(s[..|s| - 1]) == s[..|s| - 1][i..j];
      TrimmedBack(s, i, j);
    } else {
      assert IsTrimmed(s, 0, |s|) && s[0..|s|] == s;
    }
  }

  ghost predicate Touches(cs: seq<Change>, k: Key) {
    exists i :: 0 <= i < |cs| && cs[i].row.key == k
  }

  ghost predicate Alters(c: Config, w: Want, k: Key)
    requires Complete(c)
  {
    w.key == k && w.value.Some? && (k == SmtpPassword || w.value.value != c[k])
  }

  lemma TouchesMore(cs: seq<Change>, ch: Change, k: Key)
    ensures Touches(cs + [ch], k) <==> Touches(cs, k) || ch.row.key == k
  {
    if i :| 0 <= i < |cs| && cs[i].row.key == k {
      assert (cs + [ch])[i].row.key == k;
    }
    assert (cs + [ch])[|cs|] == ch;
  }

  /** ... and adds a row for a key exactly when its value changes (the password: when
      one is given). */
  lemma {:induction false} RowPerChange(c: Config, ws: seq<Want>, n: nat, k: Key)
    requires n <= |ws| && Complete(c)
    ensures Touches(Diff(c, ws, n), k) <==> exists j :: 0 <= j < n && Alters(c, ws[j], k)
  {
    if n > 0 {
      RowPerChange(c, ws, n - 1, k);
      if One(c, ws[n - 1]).Some? {
        TouchesMore(Diff(c, ws, n - 1), One(c, ws[n - 1]).value, k);
      }
    }
  }

  /** A save that changes nothing adds no row, and conversely. */
  lemma NoOpIff(s: State, p: Patch, parses: bool)
    requires Complete(s.config) && Valid(p, parses)
    ensures Patched(s, p, parses).log == s.log <==>
              forall j :: 0 <= j < |Wanted(p)| ==> !Alters(s.config, Wanted(p)[j], Wanted(p)[j].key)
  {
    var c, ws, cs := s.config, Wanted(p), Changes(s.config, p);
    RowsLength(cs);
    if cs != [] {
      RowPerChange(c, ws, |ws|, cs[0].row.key);
      assert Touches(cs, cs[0].row.key);
      var j :| 0 <= j < |ws| && Alters(c, ws[j], cs[0].row.key);
      assert Alters(c, ws[j], ws[j].key);
    } else {
      forall j | 0 <= j < |ws| ensures !Alters(c, ws[j], ws[j].key) {
        RowPerChange(c, ws, |ws|, ws[j].key);
      }
    }
  }

  lemma {:induction false} RowsLength(cs: seq<Change>)
    ensures |Rows(cs)| == |cs|
  {
    if cs != [] {
      RowsLength(cs[..|cs| - 1]);
    }
  }

  function RunAll(c0: Config, ps: seq<(Patch, bool)>): State {
    if ps == [] then State(c0, [])
    else Patched(RunAll(c0, ps[..|ps| - 1]), ps[|ps| - 1].0, ps[|ps| - 1].1)
  }

  lemma PatchedComplete(s: State, p: Patch, parses: bool)
    requires Complete(s.config)
    ensures Complete(Patched(s, p, parses).config)
  {
    WriteComplete(s.config, Changes(s.config, p));
  }

  lemma {:induction false} WriteComplete(c: Config, cs: seq<Change>)
    requires Complete(c)
    ensures Complete(Write(c, cs))
  {
    if cs != [] {
      WriteComplete(c, cs[..|cs| - 1]);
    }
  }

  /** After every run of patches, folding the audit rows over the initial snapshot
      gives the current one for all keys but smtp_password; every row names the value
      it replaced; and each setting, on its own, is as it was at the start or passes
      validation, so one that is in range at the start stays in range. */
  lemma {:induction false} LogReplays(c0: Config, ps: seq<(Patch, bool)>)
    requires Complete(c0)
    ensures var s := RunAll(c0, ps);
            && Complete(s.config)
            && Agree(Replay(c0, s.log), s.config)
            && LogOk(c0, s.log)
            && (forall k: Key :: s.config[k] == c0[k] || Fits(k, s.config[k]))
  {
    if ps != [] {
      var s := RunAll(c0, ps[..|ps| - 1]);
      var (p, parses) := ps[|ps| - 1];
      LogReplays(c0, ps[..|ps| - 1]);
      PatchedComplete(s, p, parses);
      if Valid(p, parses) {
        WantedDistinct(p);
        DiffLogged(c0, s, Wanted(p), |Wanted(p)|);
        PatchIsOverlay(s, p, parses);
        ValidIff(p, parses);
        var s' := Patched(s, p, parses);
        forall k: Key ensures s'.config[k] == c0[k] || Fits(k, s'.config[k]) {
          OverlayFits(s.config, Wanted(p), |Wanted(p)|, k);
        }
      }
    }
  }

  /** In particular: row i names what replaying the rows before it gives, and a
      different new value; only smtp_password is masked. */
  lemma RowNamesReplacedValue(c0: Config, ps: seq<(Patch, bool)>, i: nat)
    requires Complete(c0) && i < |RunAll(c0, ps).log|
    ensures var log := RunAll(c0, ps).log;
            var before, row := Replay(c0, log[..i]), log[i];
            && (row.meta.Masked? <==> row.key == SmtpPassword)
            && (row.meta.Pair? ==> row.key in before && row.meta.oldValue == before[row.key] != row.meta.newValue)
  {
    LogReplays(c0, ps);
    LogOkAt(c0, RunAll(c0, ps).log, i);
  }

  /** The token settings the authorization server steps with are these. */
  lemma TokenSettingsMatchServer(w: World.World, s: State, access: Option<nat>, refresh: Option<nat>)
    requires Complete(s.config)
    requires s.config[AccessTokenTtlSecs] == Number(w.dir.accessTtl)
    requires s.config[RefreshTokenTtlSecs] == Number(w.dir.refreshTtl)
    ensures var s', w' := Patched(s, Tokens(access, refresh), true), World.PatchTokens(w, access, refresh);
            && Complete(s'.config)
            && s'.config[AccessTokenTtlSecs] == Number(w'.dir.accessTtl)
            && s'.config[RefreshTokenTtlSecs] == Number(w'.dir.refreshTtl)
  {
    var p := Tokens(access, refresh);
    PatchedComplete(s, p, true);
    if Valid(p, true) {
      PatchIsOverlay(s, p, true);
      var c, ws := s.config, Wanted(p);
      assert Overlay(c, ws, 1) == if access.Some? then c[AccessTokenTtlSecs := Number(access.value)] else c;
      assert Overlay(c, ws, 2) == Patched(s, p, true).config;
    }
  }
}
