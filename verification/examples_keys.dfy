/**
 Concrete keys for the phrase the program harvests, "quercus lobata": a page
 of two results, links "a" and "b", answered at offset 0 and at offset 10.
 */
module KeyExamples {
  import opened GoInt
  import opened Decimal
  import opened StorageKey
  import opened Harvest

  lemma ExamplePrefix()
    ensures KeyPrefix("quercus lobata") == "validation/quercus_lobata/"
  {
  }

  lemma ExampleKeysAtOffset0()
    ensures OutputPath("quercus lobata", 0) == "validation/quercus_lobata/0.jpg"
    ensures OutputPath("quercus lobata", 1) == "validation/quercus_lobata/1.jpg"
  {
    ExamplePrefix();
    assert IntToDecimal(0) == "0";
    assert IntToDecimal(1) == "1";
  }

  lemma ExampleKeysAtOffset10()
    ensures OutputPath("quercus lobata", 10) == "validation/quercus_lobata/10.jpg"
    ensures OutputPath("quercus lobata", 11) == "validation/quercus_lobata/11.jpg"
  {
    ExamplePrefix();
    assert IntToDecimal(10) == "10";
    assert IntToDecimal(11) == "11";
  }

  /** Two results at offset 0 become exactly two uploads, to files 0 and 1, in item order. */
  lemma ExamplePageAtOffset0(jobs: seq<Job>)
    requires JobsFor(jobs, "quercus lobata", 0, [Item("", "a"), Item("", "b")])
    ensures jobs == [Job("validation/quercus_lobata/0.jpg", "a"), Job("validation/quercus_lobata/1.jpg", "b")]
  {
    ExampleKeysAtOffset0();
    assert Wrap(0 + 0) == 0 && Wrap(0 + 1) == 1;
  }

  /** The same two results at offset 10 go to files 10 and 11. */
  lemma ExamplePageAtOffset10(jobs: seq<Job>)
    requires JobsFor(jobs, "quercus lobata", 10, [Item("", "a"), Item("", "b")])
    ensures jobs == [Job("validation/quercus_lobata/10.jpg", "a"), Job("validation/quercus_lobata/11.jpg", "b")]
  {
    ExampleKeysAtOffset10();
    assert Wrap(10 + 0) == 10 && Wrap(10 + 1) == 11;
  }
}
