/** ShortServiceName (src/shortservicename.cpp, src/shortservicename.h): the key of the topic index. */
module ShortNames {
  import opened Wrappers
  import opened Text

  /** Two names are equal when their totals are; a default one has an empty total. */
  datatype ShortName = ShortName(serviceType: string, instance: string, total: string)

  const NO_NAME := ShortName("", "", "")
  const VICTRON_PREFIX := "com.victronenergy."

  /** None stands for the ValueError on a name that is neither a Victron service nor short. */
  function MakeShort(service: string): Option<string> {
    if StartsWith(service, VICTRON_PREFIX) then
      Some(service[|VICTRON_PREFIX|..FindFrom(service, '.', |VICTRON_PREFIX|)])
    else if '.' !in service && '/' !in service then Some(service)
    else None
  }

  function NameOf(service: string, instance: string): Option<ShortName> {
    match MakeShort(service)
    case None => None
    case Some(t) => Some(ShortName(t, instance, t + "/" + instance))
  }

  /** A name is refused exactly when it is no Victron name and holds a dot or a slash. */
  lemma NoShortIff(service: string)
    ensures MakeShort(service) == None <==> !StartsWith(service, "com.victronenergy.") && ('.' in service || '/' in service)
  {}

  /** A service type has no dot, so it is its own short name unless it holds a slash. */
  lemma TypeIsShort(service: string)
    requires MakeShort(service).Some?
    ensures '.' !in MakeShort(service).value
    ensures '/' !in MakeShort(service).value ==> MakeShort(MakeShort(service).value) == MakeShort(service)
  {
    var t := MakeShort(service).value;
    if StartsWith(service, VICTRON_PREFIX) {
      FindFromIsFirst(service, '.', |VICTRON_PREFIX|);
    }
    assert VICTRON_PREFIX[3] == '.';
    assert |t| >= |VICTRON_PREFIX| ==> t[..|VICTRON_PREFIX|][3] == t[3];
  }

  /** Slash-free types and instances can be read back from a total. */
  lemma TotalIsInjective(a: ShortName, b: ShortName)
    requires a.total == a.serviceType + "/" + a.instance && b.total == b.serviceType + "/" + b.instance
    requires '/' !in a.serviceType && '/' !in b.serviceType
    requires a.total == b.total
    ensures a == b
  {
    var n, m := |a.serviceType|, |b.serviceType|;
    assert a.total[n] == '/' && b.total[m] == '/';
    assert forall i | 0 <= i < m :: b.total[i] == b.serviceType[i];
    assert forall i | 0 <= i < n :: a.total[i] == a.serviceType[i];
    assert a.serviceType == a.total[..n] && a.instance == a.total[n + 1..];
  }
}
