/**
 * The PromQL expression the watchdog sends to the metrics service: the pod's
 * CPU usage rate divided by its CPU limit, as a percentage.
 */
module PromQuery {
  import opened Wrappers
  import Decimal
  import opened Strings

  const CpuRateMetric: string := "container_cpu_usage_rate"
  const PodOpen: string := "{pod=\""
  const PodClose: string := "\"}/"
  const Percent: string := "*100"

  /** buildQueryParam: metric{pod="<podName>"}/<cpuLimit>*100. */
  function BuildQueryParam(podName: string, cpuLimit: int): (q: string)
  {
    CpuRateMetric + PodOpen + podName + PodClose + Decimal.Itoa(cpuLimit) + Percent
  }

  /**
   * Takes a query apart into pod name and CPU limit. The limit is read from
   * the text after the last '/', since its decimal spelling has no '/'; the
   * pod name may contain anything.
   */
  function ParseQueryParam(q: string): Option<(string, int)> {
    var head := CpuRateMetric + PodOpen;
    if |q| < |head| + |Percent| || q[..|head|] != head || q[|q| - |Percent|..] != Percent then None
    else ParsePodAndLimit(q[|head|..|q| - |Percent|])
  }

  /** Splits <podName>"}/<cpuLimit> at its last '/'. */
  function ParsePodAndLimit(middle: string): Option<(string, int)> {
    match LastIndexOf(middle, '/')
    case None => None
    case Some(k) =>
      if k < 2 || middle[k - 2..k + 1] != PodClose then None
      else
        match Decimal.ParseInt(middle[k + 1..])
        case None => None
        case Some(limit) => Some((middle[..k - 2], limit))
  }

  lemma PodAndLimitRoundTrip(podName: string, cpuLimit: int)
    ensures ParsePodAndLimit(podName + PodClose + Decimal.Itoa(cpuLimit)) == Some((podName, cpuLimit))
  {
    var digits := Decimal.Itoa(cpuLimit);
    var middle := podName + PodClose + digits;
    var k := |podName| + 2;
    SlicesOfJoin(podName, PodClose, digits);
    assert middle[k] == '/';
    assert forall j | k < j < |middle| :: middle[j] == digits[j - k - 1];
    assert LastIndexOf(middle, '/') == Some(k);
    Decimal.ItoaRoundTrip(cpuLimit);
  }

  lemma PodAndLimitSound(middle: string, podName: string, cpuLimit: int)
    requires ParsePodAndLimit(middle) == Some((podName, cpuLimit))
    ensures middle == podName + PodClose + Decimal.Itoa(cpuLimit)
  {
    var k := LastIndexOf(middle, '/').value;
    var digits := middle[k + 1..];
    Decimal.ParseIntSound(digits, cpuLimit);
    assert middle == middle[..k - 2] + middle[k - 2..k + 1] + digits;
  }

  /** The pod name and CPU limit can be read back from the query. */
  lemma QueryParamRoundTrip(podName: string, cpuLimit: int)
    ensures ParseQueryParam(BuildQueryParam(podName, cpuLimit)) == Some((podName, cpuLimit))
  {
    var head := CpuRateMetric + PodOpen;
    var middle := podName + PodClose + Decimal.Itoa(cpuLimit);
    Regroup(head, podName, PodClose, Decimal.Itoa(cpuLimit), Percent);
    SlicesOfJoin(head, middle, Percent);
    PodAndLimitRoundTrip(podName, cpuLimit);
  }

  /** Every query the parser accepts is the one built from what it returns. */
  lemma QueryParamSound(q: string, podName: string, cpuLimit: int)
    requires ParseQueryParam(q) == Some((podName, cpuLimit))
    ensures BuildQueryParam(podName, cpuLimit) == q
  {
    var head := CpuRateMetric + PodOpen;
    assert |q| >= |head| + |Percent| && q[..|head|] == head && q[|q| - |Percent|..] == Percent;
    var middle := q[|head|..|q| - |Percent|];
    assert ParsePodAndLimit(middle) == Some((podName, cpuLimit));
    PodAndLimitSound(middle, podName, cpuLimit);
    Reassemble(q, head, Percent);
    Regroup(head, podName, PodClose, Decimal.Itoa(cpuLimit), Percent);
  }

  /** Different pods or limits never share a query. */
  lemma QueryParamInjective(p1: string, l1: int, p2: string, l2: int)
    requires BuildQueryParam(p1, l1) == BuildQueryParam(p2, l2)
    ensures p1 == p2 && l1 == l2
  {
    QueryParamRoundTrip(p1, l1);
    QueryParamRoundTrip(p2, l2);
  }
}
