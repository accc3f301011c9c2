/** Choosing the output format from a file name's suffix. */
module FileFormat {

  /** The RS_FORMAT_* constants. */
  datatype OutputFormat = Unknown | Dta | Sav | Por | Csv | Xport | Json | SasData | SasCatalog

  /** The exact, case-sensitive suffix test that `strncmp(filename + len - k, suffix, k) == 0` makes. */
  predicate EndsWith(name: string, suffix: string) {
    |suffix| <= |name| && name[|name| - |suffix|..] == suffix
  }

  /**
   * format(): the first matching suffix wins; `.csv` counts only when the
   * CSV reader is compiled in (`haveCsvReader` stands for HAVE_CSVREADER).
   * Each answer holds exactly when the name carries that suffix, and a name
   * shorter than four characters is UNKNOWN.
   */
  function DetectFormat(filename: string, haveCsvReader: bool): (r: OutputFormat)
    ensures |filename| < 4 ==> r == Unknown
    ensures r == Dta <==> EndsWith(filename, ".dta")
    ensures r == Sav <==> EndsWith(filename, ".sav")
    ensures r == Por <==> EndsWith(filename, ".por")
    ensures r == Csv <==> haveCsvReader && EndsWith(filename, ".csv")
    ensures r == Xport <==> EndsWith(filename, ".xpt")
    ensures r == Json <==> EndsWith(filename, ".json")
    ensures r == SasData <==> EndsWith(filename, ".sas7bdat")
    ensures r == SasCatalog <==> EndsWith(filename, ".sas7bcat")
    ensures r == Unknown <==> !EndsWith(filename, ".dta") && !EndsWith(filename, ".sav") && !EndsWith(filename, ".por")
                              && !(haveCsvReader && EndsWith(filename, ".csv")) && !EndsWith(filename, ".xpt")
                              && !EndsWith(filename, ".json") && !EndsWith(filename, ".sas7bdat")
                              && !EndsWith(filename, ".sas7bcat")
  {
    var len := |filename|;
    SuffixTails(filename);
    if len < 4 then Unknown
    else if filename[len - 4..] == ".dta" then Dta
    else if filename[len - 4..] == ".sav" then Sav
    else if filename[len - 4..] == ".por" then Por
    else if haveCsvReader && filename[len - 4..] == ".csv" then Csv
    else if filename[len - 4..] == ".xpt" then Xport
    else if len < 5 then Unknown
    else if filename[len - 5..] == ".json" then Json
    else if len < 9 then Unknown
    else if filename[len - 9..] == ".sas7bdat" then SasData
    else if filename[len - 9..] == ".sas7bcat" then SasCatalog
    else Unknown
  }

  /** A suffix's last `k` characters are the name's last `k` characters. */
  lemma SuffixTail(name: string, suffix: string, k: nat)
    requires EndsWith(name, suffix) && k <= |suffix|
    ensures name[|name| - k..] == suffix[|suffix| - k..]
  {
    assert name[|name| - k..] == name[|name| - |suffix|..][|suffix| - k..];
  }

  /** The recognised suffixes differ in their last four or five characters. */
  lemma SuffixTails(name: string)
    ensures EndsWith(name, ".json") ==> name[|name| - 4..] == "json"
    ensures EndsWith(name, ".sas7bdat") ==> name[|name| - 4..] == "bdat" && name[|name| - 5..] == "7bdat"
    ensures EndsWith(name, ".sas7bcat") ==> name[|name| - 4..] == "bcat" && name[|name| - 5..] == "7bcat"
  {
    if EndsWith(name, ".json") { SuffixTail(name, ".json", 4); }
    if EndsWith(name, ".sas7bdat") { SuffixTail(name, ".sas7bdat", 4); SuffixTail(name, ".sas7bdat", 5); }
    if EndsWith(name, ".sas7bcat") { SuffixTail(name, ".sas7bcat", 4); SuffixTail(name, ".sas7bcat", 5); }
  }
}
