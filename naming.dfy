/**
 * How a coordinator derives its instrument names from its logical cache name:
 * a fixed table of three known names, everything else verbatim.
 */
module Naming {

  /** Metric name fragment for a logical cache name. */
  function ItemName(name: string): (r: string)
    ensures r == name <==> !IsKnownName(name)
  {
    match name
    case "chunks-cache" => "chunks_cache"
    case "metadata-cache" => "metadata_cache"
    case "parquet-labels-cache" => "parquet_labels_cache"
    case _ => name
  }

  /** Help-text fragment for a logical cache name; empty for unknown names. */
  function HelpText(name: string): (r: string)
    ensures r == "" <==> !IsKnownName(name)
  {
    match name
    case "chunks-cache" => "chunks cache"
    case "metadata-cache" => "metadata cache"
    case "parquet-labels-cache" => "parquet labels cache"
    case _ => ""
  }

  predicate IsKnownName(name: string)
  {
    name == "chunks-cache" || name == "metadata-cache" || name == "parquet-labels-cache"
  }

  /** The name table: the three known names get their fragment and help text, any other name passes through with an empty help text. */
  lemma NameTable(name: string)
    ensures name == "chunks-cache" ==> ItemName(name) == "chunks_cache" && HelpText(name) == "chunks cache"
    ensures name == "metadata-cache" ==> ItemName(name) == "metadata_cache" && HelpText(name) == "metadata cache"
    ensures name == "parquet-labels-cache" ==>
      ItemName(name) == "parquet_labels_cache" && HelpText(name) == "parquet labels cache"
    ensures !IsKnownName(name) ==> ItemName(name) == name && HelpText(name) == ""
    ensures IsKnownName(name) <==> ItemName(name) != name
  {
  }

  /** The table is not injective: an unknown name spelled with underscores collides with a known one. */
  lemma ItemNameCollides()
    ensures ItemName("chunks-cache") == ItemName("chunks_cache")
    ensures "chunks-cache" != "chunks_cache"
  {
  }

  datatype Metric = Metric(name: string, help: string)

  /** The four instruments a coordinator registers. */
  datatype Instruments = Instruments(
    fetchLatency: Metric,
    backfillLatency: Metric,
    storeDroppedItems: Metric,
    backfillDroppedItems: Metric)

  const Prefix: string := "cortex_store_multilevel_"
  const FetchSuffix: string := "_fetch_duration_seconds"
  const BackfillSuffix: string := "_backfill_duration_seconds"
  const BackfillDropSuffix: string := "_backfill_dropped_items_total"
  const StoreDropSuffix: string := "_store_dropped_items_total"
  const FetchHelp: string := "Histogram to track latency to fetch items from multi level "
  const BackfillHelp: string := "Histogram to track latency to backfill items from multi level "
  const BackfillDropHelp: string := "Total number of items dropped due to async buffer full when backfilling multilevel "
  const StoreDropHelp: string := "Total number of items dropped due to async buffer full when storing multilevel "

  /** A metric name is the prefix and the fragment, followed by its suffix. */
  function MetricName(item: string, suffix: string): (r: string)
    ensures |r| == |Prefix + item| + |suffix|
    ensures r[..|Prefix + item|] == Prefix + item
    ensures r[|Prefix + item|..] == suffix
  {
    Prefix + item + suffix
  }

  /**
   * The instruments registered for logical name `name`, as the code writes
   * them: the counter that Store increments carries the `backfill` name and
   * help text, and the counter that the backfill pass increments carries the
   * `store` ones.
   */
  function InstrumentsFor(name: string): (r: Instruments)
    ensures var n := |Prefix + ItemName(name)|;
      && n <= |r.fetchLatency.name| && r.fetchLatency.name[..n] == Prefix + ItemName(name)
      && n <= |r.backfillLatency.name| && r.backfillLatency.name[..n] == Prefix + ItemName(name)
      && n <= |r.storeDroppedItems.name| && r.storeDroppedItems.name[..n] == Prefix + ItemName(name)
      && n <= |r.backfillDroppedItems.name| && r.backfillDroppedItems.name[..n] == Prefix + ItemName(name)
    ensures var n := |Prefix + ItemName(name)|;
      && n <= |r.fetchLatency.name| && r.fetchLatency.name[n..] == FetchSuffix
      && n <= |r.backfillLatency.name| && r.backfillLatency.name[n..] == BackfillSuffix
      && n <= |r.storeDroppedItems.name| && r.storeDroppedItems.name[n..] == BackfillDropSuffix
      && n <= |r.backfillDroppedItems.name| && r.backfillDroppedItems.name[n..] == StoreDropSuffix
    ensures r.fetchLatency.help == FetchHelp + HelpText(name)
    ensures r.backfillLatency.help == BackfillHelp + HelpText(name)
    ensures r.storeDroppedItems.help == BackfillDropHelp + HelpText(name)
    ensures r.backfillDroppedItems.help == StoreDropHelp + HelpText(name)
  {
    var item := ItemName(name);
    var help := HelpText(name);
    Instruments(
      Metric(MetricName(item, FetchSuffix), FetchHelp + help),
      Metric(MetricName(item, BackfillSuffix), BackfillHelp + help),
      Metric(MetricName(item, BackfillDropSuffix), BackfillDropHelp + help),
      Metric(MetricName(item, StoreDropSuffix), StoreDropHelp + help))
  }

  /** Metric names with the same fragment and different suffixes differ. */
  lemma MetricNamesDiffer(item: string, s1: string, s2: string)
    requires s1 != s2
    ensures MetricName(item, s1) != MetricName(item, s2)
  {
  }

  /** For every logical name the four registered names are pairwise distinct. */
  lemma InstrumentNamesDistinct(name: string)
    ensures var ins := InstrumentsFor(name);
      && ins.fetchLatency.name != ins.backfillLatency.name
      && ins.fetchLatency.name != ins.storeDroppedItems.name
      && ins.fetchLatency.name != ins.backfillDroppedItems.name
      && ins.backfillLatency.name != ins.storeDroppedItems.name
      && ins.backfillLatency.name != ins.backfillDroppedItems.name
      && ins.storeDroppedItems.name != ins.backfillDroppedItems.name
  {
    var item := ItemName(name);
    assert BackfillSuffix[1] != StoreDropSuffix[1];
    MetricNamesDiffer(item, FetchSuffix, BackfillSuffix);
    MetricNamesDiffer(item, FetchSuffix, BackfillDropSuffix);
    MetricNamesDiffer(item, FetchSuffix, StoreDropSuffix);
    MetricNamesDiffer(item, BackfillSuffix, BackfillDropSuffix);
    MetricNamesDiffer(item, BackfillSuffix, StoreDropSuffix);
    MetricNamesDiffer(item, BackfillDropSuffix, StoreDropSuffix);
  }
}
