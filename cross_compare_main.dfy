/**
 * What `cross_compare_main.py` hands to `cross_compare_analyzed_checkpoints`:
 * the job name as given, and the same comparison arguments as
 * `compare_main.py` picks out.
 */
module CrossCompareMain {
  import opened CompareKeys
  import CompareMain

  /** The job name handed on: the name itself, without the analysis prefix. */
  function CrossCompareRequest<V>(name: string, allArgs: seq<(string, V)>): CompareMain.CompareCall<V>
  {
    CompareMain.CompareCall(name, CompareArgs(allArgs))
  }

  /**
   * The two scripts pick the same comparison arguments from the same
   * dictionary and differ only in the job name: the comparison script
   * names the analysis job, the cross-comparison script the job itself.
   */
  lemma {:induction false} RequestsDiffer<V>(name: string, allArgs: seq<(string, V)>)
    ensures CrossCompareRequest(name, allArgs).compareArgs == CompareMain.CompareRequest(name, allArgs).compareArgs
    ensures CompareMain.CompareRequest(name, allArgs).jobName == CompareMain.AnalyzePrefix + CrossCompareRequest(name, allArgs).jobName
    ensures CrossCompareRequest(name, allArgs).jobName != CompareMain.CompareRequest(name, allArgs).jobName
  {
    assert |CompareMain.AnalysisJobName(name)| > |name|;
  }
}
