/** `key=value` lines. */
module Fields {
  import opened Orders
  import opened Texts

  datatype Key =
    | ClientId | OrderId | Symbol | SideKey | KindKey | PriceKey | StopPriceKey
    | QuantityKey | FilledKey | StatusKey | TimestampKey | CountKey

  function Name(k: Key): string {
    match k
    case ClientId => "client_id"
    case OrderId => "order_id"
    case Symbol => "symbol"
    case SideKey => "side"
    case KindKey => "order_type"
    case PriceKey => "price"
    case StopPriceKey => "stop_price"
    case QuantityKey => "quantity"
    case FilledKey => "filled_quantity"
    case StatusKey => "status"
    case TimestampKey => "timestamp"
    case CountKey => "order_count"
  }

  function Named(name: string, value: string): string {
    name + "=" + value
  }

  function Field(k: Key, value: string): string {
    Named(Name(k), value)
  }

  /** The line starts with this key and an equals sign. */
  predicate Is(line: string, k: Key) {
    Name(k) + "=" <= line
  }

  /** The position of the first equals sign, or the length. */
  function Equals(line: string): (i: nat)
    ensures i <= |line| && '=' !in line[..i] && (i < |line| ==> line[i] == '=')
  {
    if line == "" || line[0] == '=' then 0 else
      var i := 1 + Equals(line[1..]);
      assert line[..i] == [line[0]] + line[1..][..i - 1];
      i
  }

  /** What stands behind the first equals sign. */
  function ValueOf(line: string): string {
    var i := Equals(line);
    if i == |line| then "" else line[i + 1..]
  }

  lemma EqualsAt(name: string, value: string)
    requires '=' !in name
    ensures Equals(Named(name, value)) == |name| && ValueOf(Named(name, value)) == value
  {
    var s, i := Named(name, value), Equals(Named(name, value));
    assert s[|name|] == '=' && s[..|name|] == name;
    assert forall j :: 0 <= j < i ==> s[..i][j] == s[j];
    assert forall j :: 0 <= j < |name| ==> s[j] == name[j];
  }

  lemma NoEquals(k: Key)
    ensures '=' !in Name(k)
  {
  }

  lemma NamesDiffer(a: Key, b: Key)
    ensures Name(a) == Name(b) <==> a == b
  {
    assert "order_id"[0] != "quantity"[0];
    assert "symbol"[1] != "status"[1];
    assert "order_type"[0] != "stop_price"[0];
    assert "client_id"[0] != "timestamp"[0];
  }

  /** A line carries the key in front of its first equals sign. */
  lemma KeyAt(line: string, k: Key)
    ensures Is(line, k) <==> Equals(line) < |line| && line[..Equals(line)] == Name(k)
  {
    hide Name, Equals;
    NoEquals(k);
    var n, i := |Name(k)|, Equals(line);
    if Is(line, k) {
      EqualsAt(Name(k), line[n + 1..]);
      assert line == Named(Name(k), line[n + 1..]);
    }
    if i < |line| && line[..i] == Name(k) {
      assert line[..i + 1] == Name(k) + "=";
    }
  }

  /** A field carries its own key and no other, and its value reads back. */
  lemma FieldIs(k: Key, value: string)
    ensures forall k' :: Is(Field(k, value), k') <==> k' == k
    ensures ValueOf(Field(k, value)) == value
  {
    hide Name, Equals, ValueOf, Is;
    var line := Field(k, value);
    NoEquals(k);
    EqualsAt(Name(k), value);
    assert line[..|Name(k)|] == Name(k);
    forall k' ensures Is(line, k') <==> k' == k {
      KeyAt(line, k');
      NamesDiffer(k, k');
    }
  }

  /** A line without an equals sign carries no key. */
  lemma NoField(line: string)
    requires '=' !in line
    ensures forall k :: !Is(line, k)
  {
    hide Is, Name;
    forall k ensures !Is(line, k) {
      KeyAt(line, k);
    }
  }

  lemma FieldOneLine(k: Key, value: string)
    requires OneLine(value)
    ensures OneLine(Field(k, value)) && Field(k, value) != "" && '=' in Field(k, value)
  {
    assert OneLine(Name(k));
    assert Field(k, value)[|Name(k)|] == '=';
  }

  lemma ValueOneLine(line: string)
    requires OneLine(line)
    ensures OneLine(ValueOf(line))
  {
  }

  // ---------- Enumerations ----------

  function SideText(s: Side): string {
    if s.Buy? then "BUY" else "SELL"
  }

  function SideOf(v: string): Side {
    if v == "BUY" then Buy else if v == "SELL" then Sell else Buy
  }

  function KindText(k: Kind): string {
    match k
    case Market => "MARKET"
    case Stop => "STOP"
    case StopLimit => "STOP_LIMIT"
    case Limit => "LIMIT"
  }

  function KindOf(v: string): Kind {
    if v == "MARKET" then Market
    else if v == "STOP" then Stop
    else if v == "STOP_LIMIT" then StopLimit
    else Limit
  }

  function StatusText(s: Status): string {
    match s
    case Pending => "PENDING"
    case Partial => "PARTIAL"
    case Filled => "FILLED"
    case Canceled => "CANCELED"
    case Rejected => "REJECTED"
  }

  function StatusOf(v: string): Status {
    if v == "PENDING" then Pending
    else if v == "PARTIAL" then Partial
    else if v == "FILLED" then Filled
    else if v == "CANCELED" then Canceled
    else if v == "REJECTED" then Rejected
    else Pending
  }

  lemma SideReadsBack(s: Side)
    ensures SideOf(SideText(s)) == s && OneLine(SideText(s))
  {
  }

  lemma KindReadsBack(k: Kind)
    ensures KindOf(KindText(k)) == k && OneLine(KindText(k))
  {
  }

  lemma StatusReadsBack(s: Status)
    ensures StatusOf(StatusText(s)) == s && OneLine(StatusText(s))
  {
    assert "PENDING"[1] != "PARTIAL"[1];
    assert "CANCELED"[0] != "REJECTED"[0];
  }
}
