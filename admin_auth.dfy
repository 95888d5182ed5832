/** Admin sign-in (`lib/adminAuth.ts`): a fixed credential check, and a
    session record kept under one key of the browser's key-value store that
    expires eight hours after login. */
module AdminAuth {
  import opened Common
  import opened Json
  import opened Text

  const AdminEmail := "admin1@gmail.com"
  const Password1 := "ADMIN_PASS_1"
  const Password2 := "ADMIN_PASS_2"
  const StorageKey := "adminAuth"
  /** Eight hours in milliseconds. */
  const MaxSessionMs := 8 * 60 * 60 * 1000
  const InvalidMessage := "Invalid email or password."

  /** What `loginAdmin` returns. */
  datatype LoginResult = LoginResult(ok: bool, error: Option<string>)

  /** `email.trim().toLowerCase()` */
  function NormalizedEmail(email: string): string {
    ToLower(Trim(email))
  }

  /** The credential check of `loginAdmin`: the email is trimmed and
      lower-cased, the password compared exactly; both failures give the
      same message. */
  function LoginOutcome(email: string, password: string): (r: LoginResult)
    ensures r.ok <==> NormalizedEmail(email) == AdminEmail && (password == Password1 || password == Password2)
    ensures r.ok <==> r.error.None?
    ensures !r.ok ==> r.error == Some(InvalidMessage)
  {
    if NormalizedEmail(email) != AdminEmail then LoginResult(false, Some(InvalidMessage))
    else if password != Password1 && password != Password2 then LoginResult(false, Some(InvalidMessage))
    else LoginResult(true, None)
  }

  /** Padding around the email never changes the outcome. */
  lemma EmailPaddingIgnored(email: string, password: string)
    ensures LoginOutcome(Trim(email), password) == LoginOutcome(email, password)
  {
    TrimIdempotent(email);
  }

  /** The password is neither trimmed nor case-folded. */
  lemma PasswordIsExact(email: string)
    ensures !LoginOutcome(email, Password1 + " ").ok
    ensures !LoginOutcome(email, "admin_pass_1").ok
  {
    assert |Password1 + " "| != |Password1| && |Password1 + " "| != |Password2|;
    assert "admin_pass_1"[0] != Password1[0] && "admin_pass_1"[0] != Password2[0];
  }

  /** One decimal digit. */
  function DigitChar(d: int): char
    requires 0 <= d < 10
  {
    "0123456789"[d]
  }

  /** `String(n)` for a natural number. */
  function NatText(n: nat): (s: string)
    ensures |s| >= 1
    decreases n
  {
    if n < 10 then [DigitChar(n)] else NatText(n / 10) + [DigitChar(n % 10)]
  }

  /** `String(n)` for an integer. */
  function IntText(n: int): (s: string)
    ensures |s| >= 1
  {
    if n < 0 then "-" + NatText(-n) else NatText(n)
  }

  /** A stored value: its text, kept together with what `JSON.parse` gives
      for that text (`None` when it throws). */
  datatype StoredItem = StoredItem(raw: string, parsed: Option<Json>)

  /** The record a successful login stores, as `JSON.stringify` writes it
      and as `JSON.parse` reads it back. */
  function RecordItem(now: int): (item: StoredItem)
    ensures item.raw != ""
    ensures item.parsed.Some? && item.parsed.value.JObj?
    ensures Field(item.parsed.value, "email") == Some(JStr(AdminEmail))
    ensures Field(item.parsed.value, "timestamp") == Some(JNum(now))
  {
    StoredItem("{\"email\":\"" + AdminEmail + "\",\"timestamp\":" + IntText(now) + "}",
               Some(JObj(map["email" := JStr(AdminEmail), "timestamp" := JNum(now)])))
  }

  /** What a session check concludes, and whether it removes the record. */
  datatype Verdict = Authenticated | Rejected | Removed

  function Lookup(store: map<string, StoredItem>): (item: Option<StoredItem>)
    ensures item.Some? <==> StorageKey in store
    ensures item.Some? ==> item.value == store[StorageKey]
  {
    if StorageKey in store then Some(store[StorageKey]) else None
  }

  /** The value of a string of decimal digits, `None` when it is empty or
      holds anything else. */
  function DigitsValue(s: string): (r: Option<nat>)
    ensures r.Some? ==> s != []
  {
    if s == [] then None
    else
      var last := s[|s| - 1];
      if !('0' <= last <= '9') then None
      else if |s| == 1 then Some(last as int - '0' as int)
      else
        var rest := DigitsValue(s[..|s| - 1]);
        if rest.None? then None else Some(10 * rest.value + (last as int - '0' as int))
  }

  /** Only strings of decimal digits have a digit value. */
  lemma {:induction false} DigitsValueOnlyDigits(s: string, i: int)
    requires DigitsValue(s).Some? && 0 <= i < |s|
    ensures '0' <= s[i] <= '9'
  {
    if i < |s| - 1 {
      DigitsValueOnlyDigits(s[..|s| - 1], i);
    }
  }

  /** The digit value of the decimal text of a natural number is that number. */
  lemma {:induction false} DigitsValueOfNatText(n: nat)
    ensures DigitsValue(NatText(n)) == Some(n)
  {
    var d := n % 10;
    assert DigitChar(d) as int - '0' as int == d by {
      assert d == 0 || d == 1 || d == 2 || d == 3 || d == 4 || d == 5 || d == 6 || d == 7 || d == 8 || d == 9;
    }
    if n >= 10 {
      DigitsValueOfNatText(n / 10);
      var s := NatText(n);
      assert s[..|s| - 1] == NatText(n / 10);
    }
  }

  /** The result of `Number(value)`: a number, `NaN`, or the `TypeError`
      thrown when the value has no primitive form. */
  datatype Coerced = Number(n: int) | NaN | TypeError

  /** `Number(s)` for a string: the trimmed text read as an optionally
      signed run of decimal digits; the empty string is 0. */
  function StringToNumber(s: string): (r: Coerced)
    ensures !r.TypeError?
    ensures Trim(s) == "" ==> r == Number(0)
  {
    var t := Trim(s);
    if t == "" then Number(0)
    else
      var signed := t[0] == '-' || t[0] == '+';
      var d := DigitsValue(if signed then t[1..] else t);
      if d.None? then NaN
      else if t[0] == '-' then Number(-(d.value as int))
      else Number(d.value)
  }

  /** A string holding a character that is neither whitespace, a digit nor a
      sign is not a number. */
  lemma StringWithOtherCharIsNaN(s: string, i: int)
    requires 0 <= i < |s| && !IsSpace(s[i]) && !('0' <= s[i] <= '9') && s[i] != '-' && s[i] != '+'
    ensures StringToNumber(s) == NaN
  {
    var t := TrimStart(s);
    var k := |s| - |t|;
    TrimStartIsSuffix(s);
    forall m | 0 <= m < k
      ensures IsSpace(s[m])
    {
      assert s[..k][m] == s[m];
    }
    assert !IsSpace(s[i]);
    assert t[i - k] == s[i];
    var u := TrimEnd(t);
    forall m | |u| <= m < |t|
      ensures IsSpace(t[m])
    {
      assert t[|u|..][m - |u|] == t[m];
    }
    assert !IsSpace(t[i - k]);
    assert u[i - k] == s[i];
    var j := i - k;
    if u[0] == '-' || u[0] == '+' {
      assert j > 0;
      if DigitsValue(u[1..]).Some? {
        DigitsValueOnlyDigits(u[1..], j - 1);
      }
    } else if DigitsValue(u).Some? {
      DigitsValueOnlyDigits(u, j);
    }
  }

  /** `Number(String(n))` is `n`. */
  lemma StringToNumberOfIntText(n: int)
    ensures StringToNumber(IntText(n)) == Number(n)
  {
    NatTextDigits(if n < 0 then -n else n);
    var s := IntText(n);
    assert NoSpace(s) by {
      forall i | 0 <= i < |s|
        ensures !IsSpace(s[i])
      {
        if n < 0 && i > 0 {
          assert s[i] == NatText(-n)[i - 1];
        }
      }
    }
    TrimOfNoSpace(s);
    if n < 0 {
      DigitsValueOfNatText(-n);
      assert s[1..] == NatText(-n);
    } else {
      DigitsValueOfNatText(n);
    }
  }

  /** Decimal text holds only digits. */
  lemma {:induction false} NatTextDigits(n: nat)
    ensures forall i :: 0 <= i < |NatText(n)| ==> '0' <= NatText(n)[i] <= '9'
  {
    var d := n % 10;
    assert '0' <= DigitChar(d) <= '9' by {
      assert d == 0 || d == 1 || d == 2 || d == 3 || d == 4 || d == 5 || d == 6 || d == 7 || d == 8 || d == 9;
    }
    if n >= 10 {
      NatTextDigits(n / 10);
    }
  }

  /** `String(value)` of an array element, as `join` writes it: `null` is
      empty, a nested array is joined in turn, and `None` stands for the
      `TypeError` of an object with an own `toString` key (its value is data,
      never a callable, so neither conversion method yields a primitive). */
  function ElementText(v: Json): Option<string>
    decreases v
  {
    match v
    case JNull => Some("")
    case JBool(b) => Some(if b then "true" else "false")
    case JNum(n) => Some(IntText(n))
    case JStr(s) => Some(s)
    case JArr(items) => JoinedText(items)
    case JObj(m) => if "toString" in m then None else Some("[object Object]")
  }

  /** `items.join(",")`, or `None` when converting an element throws. */
  function JoinedText(items: seq<Json>): Option<string>
    decreases items
  {
    if items == [] then Some("")
    else
      var first := ElementText(items[0]);
      if |items| == 1 then first
      else
        var rest := JoinedText(items[1..]);
        if first.None? || rest.None? then None else Some(first.value + "," + rest.value)
  }

  /** A join of two or more elements, when it succeeds, holds a comma, so
      it is not a number. */
  lemma JoinedTextIsNaN(items: seq<Json>)
    requires |items| >= 2 && JoinedText(items).Some?
    ensures StringToNumber(JoinedText(items).value) == NaN
  {
    var first := ElementText(items[0]).value;
    assert JoinedText(items).value[|first|] == ',';
    StringWithOtherCharIsNaN(JoinedText(items).value, |first|);
  }

  /** `Number(value)`, where `value` is what `JSON.parse` can give and `None`
      stands for `undefined`. An object converts through its `toString`, an
      array through `join`. */
  function ToNumber(value: Option<Json>): (n: Coerced)
    ensures value.None? ==> n == NaN
    ensures value == Some(JNull) ==> n == Number(0)
    ensures value.Some? && value.value.JNum? ==> n == Number(value.value.n)
    ensures value.Some? && value.value.JBool? ==> n == Number(if value.value.b then 1 else 0)
    ensures value.Some? && value.value.JStr? ==> n == StringToNumber(value.value.s)
    ensures value.Some? && value.value.JObj? ==> n == (if "toString" in value.value.fields then TypeError else NaN)
    ensures value == Some(JArr([])) ==> n == Number(0)
    ensures value.Some? && value.value.JArr? && |value.value.items| == 1 && value.value.items[0].JNum? ==>
              n == Number(value.value.items[0].n)
    ensures value.Some? && value.value.JArr? && |value.value.items| == 1 && value.value.items[0].JStr? ==>
              n == StringToNumber(value.value.items[0].s)
    ensures value.Some? && value.value.JArr? && |value.value.items| >= 2 ==> !n.Number?
  {
    match value
    case None => NaN
    case Some(JNull) => Number(0)
    case Some(JBool(b)) => Number(if b then 1 else 0)
    case Some(JNum(k)) => Number(k)
    case Some(JStr(s)) => StringToNumber(s)
    case Some(JObj(m)) => if "toString" in m then TypeError else NaN
    case Some(JArr(items)) =>
      var text := JoinedText(items);
      assert |items| == 1 ==> text == ElementText(items[0]);
      if text.None? then TypeError
      else if |items| == 1 && items[0].JNum? then
        StringToNumberOfIntText(items[0].n);
        StringToNumber(text.value)
      else if |items| >= 2 then
        JoinedTextIsNaN(items);
        StringToNumber(text.value)
      else StringToNumber(text.value)
  }

  /** The stored value parses to a non-null value whose `email` is the admin's. */
  predicate HoldsAdminEmail(item: Option<StoredItem>) {
    item.Some? && item.value.raw != "" && item.value.parsed.Some? && !item.value.parsed.value.JNull? &&
    Field(item.value.parsed.value, "email") == Some(JStr(AdminEmail))
  }

  /** A stored value that is present and non-empty but does not parse, or
      parses to `null`. */
  predicate Unreadable(item: Option<StoredItem>) {
    item.Some? && item.value.raw != "" && (item.value.parsed.None? || item.value.parsed.value.JNull?)
  }

  /** `Number(record.timestamp)`, the coercion the subtraction `Date.now() -
      record.timestamp` applies. */
  function StoredTimestamp(item: Option<StoredItem>): Coerced
    requires HoldsAdminEmail(item)
  {
    ToNumber(Field(item.value.parsed.value, "timestamp"))
  }

  /** `isAdminAuthenticated` as written. A missing or empty value is
      rejected; a value that does not parse, or parses to `null` (reading
      its `email` throws), is removed. `Number.isNaN` does not coerce and no
      parsed value is the number `NaN`, so that guard never fires; the age
      is `now - Number(timestamp)`, a `NaN` age is never over the limit, and
      a `TypeError` of the coercion is caught and removes the record. */
  function CheckAsWritten(item: Option<StoredItem>, now: int): (v: Verdict)
    ensures item.None? ==> v == Rejected
    ensures v == Authenticated <==>
              HoldsAdminEmail(item) &&
              (StoredTimestamp(item).NaN? || (StoredTimestamp(item).Number? && now - StoredTimestamp(item).n <= MaxSessionMs))
    ensures HoldsAdminEmail(item) && StoredTimestamp(item).Number? && now - StoredTimestamp(item).n > MaxSessionMs ==>
              v == Removed
    ensures HoldsAdminEmail(item) && StoredTimestamp(item).TypeError? ==> v == Removed
    ensures Unreadable(item) ==> v == Removed
    ensures (item.Some? && item.value.raw != "" && item.value.parsed.Some? && !item.value.parsed.value.JNull? &&
             Field(item.value.parsed.value, "email") != Some(JStr(AdminEmail))) ==> v == Rejected
  {
    if item.None? || item.value.raw == "" then Rejected
    else if item.value.parsed.None? || item.value.parsed.value.JNull? then Removed
    else
      var record := item.value.parsed.value;
      if Field(record, "email") != Some(JStr(AdminEmail)) then Rejected
      else
        var timestamp := ToNumber(Field(record, "timestamp"));
        if timestamp.TypeError? then Removed
        else if timestamp.Number? && now - timestamp.n > MaxSessionMs then Removed
        else Authenticated
  }

  /** A record with the admin's email and no timestamp is never expired. */
  lemma AsWrittenNeverExpires(now: int)
    ensures CheckAsWritten(Some(StoredItem("{\"email\":\"admin1@gmail.com\"}",
                                           Some(JObj(map["email" := JStr(AdminEmail)])))), now) == Authenticated
  {
    var record := JObj(map["email" := JStr(AdminEmail)]);
    assert Field(record, "timestamp").None?;
  }

  /** A timestamp stored as the one-element array `[5]` or as the text `"5"`
      is coerced to 5 and expires like the number. */
  lemma AsWrittenCoercesTimestamp(now: int)
    ensures var arr := JObj(map["email" := JStr(AdminEmail), "timestamp" := JArr([JNum(5)])]);
            CheckAsWritten(Some(StoredItem("{\"email\":\"admin1@gmail.com\",\"timestamp\":[5]}", Some(arr))), now) ==
            if now - 5 > MaxSessionMs then Removed else Authenticated
    ensures var str := JObj(map["email" := JStr(AdminEmail), "timestamp" := JStr("5")]);
            CheckAsWritten(Some(StoredItem("{\"email\":\"admin1@gmail.com\",\"timestamp\":\"5\"}", Some(str))), now) ==
            if now - 5 > MaxSessionMs then Removed else Authenticated
  {
    StringToNumberOfIntText(5);
    assert IntText(5) == "5";
  }

  /** A timestamp that is a non-numeric text, such as `"soon"`, is `NaN` and
      never expires; an object with an own `toString` key makes the
      subtraction throw, and the record is removed. */
  lemma AsWrittenNonNumericTimestamps(now: int)
    ensures var str := JObj(map["email" := JStr(AdminEmail), "timestamp" := JStr("soon")]);
            CheckAsWritten(Some(StoredItem("{\"email\":\"admin1@gmail.com\",\"timestamp\":\"soon\"}", Some(str))), now) ==
            Authenticated
    ensures var obj := JObj(map["email" := JStr(AdminEmail), "timestamp" := JObj(map["toString" := JNum(1)])]);
            CheckAsWritten(Some(StoredItem("{\"email\":\"admin1@gmail.com\",\"timestamp\":{\"toString\":1}}", Some(obj))), now) ==
            Removed
  {
    StringWithOtherCharIsNaN("soon", 0);
  }

  /** `isAdminAuthenticated` as intended: a record whose timestamp is not a
      number is rejected, like one with the wrong email. */
  function CheckRecord(item: Option<StoredItem>, now: int): (v: Verdict)
    ensures v.Authenticated? ==>
              item.Some? && item.value.parsed.Some? &&
              Field(item.value.parsed.value, "email") == Some(JStr(AdminEmail)) &&
              exists t :: Field(item.value.parsed.value, "timestamp") == Some(JNum(t)) && now - t <= MaxSessionMs
    ensures item.None? ==> v == Rejected
  {
    if item.None? || item.value.raw == "" then Rejected
    else if item.value.parsed.None? || item.value.parsed.value.JNull? then Removed
    else
      var record := item.value.parsed.value;
      if Field(record, "email") != Some(JStr(AdminEmail)) then Rejected
      else
        var timestamp := Field(record, "timestamp");
        if timestamp.None? || !timestamp.value.JNum? then Rejected
        else if now - timestamp.value.n > MaxSessionMs then Removed
        else Authenticated
  }

  /** The two checks agree on every record whose timestamp is a number, in
      particular on every record a login writes. */
  lemma ChecksAgreeOnNumericTimestamps(item: Option<StoredItem>, now: int)
    requires item.Some? && item.value.parsed.Some?
    requires var t := Field(item.value.parsed.value, "timestamp"); t.Some? && t.value.JNum?
    ensures CheckAsWritten(item, now) == CheckRecord(item, now)
  {
  }

  /** A login at `loginAt` is valid at `now` exactly while at most eight
      hours have passed; after that the record is removed. */
  lemma SessionLifetime(loginAt: int, now: int)
    ensures CheckRecord(Some(RecordItem(loginAt)), now) ==
            if now - loginAt <= MaxSessionMs then Authenticated else Removed
  {
  }

  /** Exactly eight hours after login is still signed in; a millisecond
      later is not. */
  lemma EightHourBoundary(loginAt: int)
    ensures CheckRecord(Some(RecordItem(loginAt)), loginAt + 28800000) == Authenticated
    ensures CheckRecord(Some(RecordItem(loginAt)), loginAt + 28800001) == Removed
  {
    SessionLifetime(loginAt, loginAt + 28800000);
    SessionLifetime(loginAt, loginAt + 28800001);
  }

  /** The browser's store, of which only `adminAuth` is read or written. */
  class AdminSession {
    var store: map<string, StoredItem>

    constructor(initial: map<string, StoredItem>)
      ensures store == initial
    {
      store := initial;
    }

    /** `loginAdmin(email, password)` at time `now`; a failed login writes
        nothing. */
    method Login(email: string, password: string, now: int) returns (result: LoginResult)
      modifies this
      ensures result == LoginOutcome(email, password)
      ensures result.ok ==> store == old(store)[StorageKey := RecordItem(now)]
      ensures !result.ok ==> store == old(store)
    {
      result := LoginOutcome(email, password);
      if result.ok {
        var item := RecordItem(now);
        store := store[StorageKey := item];
      }
    }

    /** `isAdminAuthenticated()` at time `now`, removing an expired or
        unreadable record. */
    method IsAuthenticated(now: int) returns (ok: bool)
      modifies this
      ensures ok <==> CheckAsWritten(Lookup(old(store)), now) == Authenticated
      ensures CheckAsWritten(Lookup(old(store)), now) == Removed ==> store == old(store) - {StorageKey}
      ensures CheckAsWritten(Lookup(old(store)), now) != Removed ==> store == old(store)
      ensures Unreadable(Lookup(old(store))) ==> !ok && store == old(store) - {StorageKey}
      ensures HoldsAdminEmail(Lookup(old(store))) || Unreadable(Lookup(old(store))) || store == old(store)
    {
      var verdict := CheckAsWritten(Lookup(store), now);
      if verdict == Removed {
        store := store - {StorageKey};
      }
      ok := verdict == Authenticated;
    }

    /** `logoutAdmin()` */
    method Logout()
      modifies this
      ensures store == old(store) - {StorageKey}
      ensures Lookup(store).None?
    {
      store := store - {StorageKey};
    }
  }

  /** After a successful login the stored record has a numeric timestamp, so
      the check as written passes for eight hours and then removes it,
      whatever the store held before. */
  lemma LoginThenCheck(store: map<string, StoredItem>, now: int, later: int)
    ensures CheckAsWritten(Lookup(store[StorageKey := RecordItem(now)]), later) ==
            if later - now <= MaxSessionMs then Authenticated else Removed
  {
    var item := Lookup(store[StorageKey := RecordItem(now)]);
    ChecksAgreeOnNumericTimestamps(item, later);
    SessionLifetime(now, later);
  }
}
