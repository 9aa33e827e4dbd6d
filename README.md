# Kemenkop KPI generator: a verified model

This project models the core of the KPI generator for Indonesia's
village cooperatives. The core builds two dimension tables and one fact table.

- **DIM_GEOGRAPHY** (module `GeographyDimension`, whole-table facts in
  `GeographyFacts`) has four levels: province, district, subdistrict and
  village.
  - Each level is a loop over the level's reference table. It skips a key it
    has already recorded. It drops a subdistrict whose district is missing,
    and a village whose subdistrict or district is missing.
  - It appends one row per kept record with the next dense `geo_key`.
  - A row leaves every field deeper than its own level empty.
- **DIM_PERIOD** (modules `Calendar` and `PeriodDimension`) has year, quarter,
  month and week rows with a dense depth-first `date_key`. Weeks start on
  Monday and are clipped to their month (`get_week_ranges`).
- **FACT_KPI** (module `FactEngine`) has one row per village row of the
  geography dimension whose code some village carries and whose villages
  hold at least one cooperative.
  - The run uses the latest week of the period dimension.
  - District and subdistrict codes are mapped to internal ids.
  - Each row gets four representative dimension keys: the first outlet,
    partnership service, UPKDK unit and business classification (KLU) in
    scope, or 0.
  - The nine KPI calculators fill the row (`CooperativeKpi`, `BusinessKpi`,
    `PartnershipKpi`, `VillageKpi`). They draw on the global aggregates in
    `GlobalAggregates` and the guarded divisions in `Ratios`.
  - Finally every expected column is filled, put in order and converted
    (`Columns`).
- **The output file name** `FACT_KPI_V<nnn>.csv` (module `Versioning`) carries
  one more than the largest version already present.

The loops of the source are methods proved equal to a specification function;
the properties the source promises are lemmas about those functions. `Common`
holds the generic filter, count, first-match, dictionary and mean helpers the
pandas expressions reduce to; `Records` holds the input tables, one datatype
per CSV source.

## Model

| member | source | states |
|---|---|---|
| Calendar.DaysInMonth | generate_dimensions.py:188 | a month has 28 to 31 days, and 29 exactly in February of a leap year |
| Calendar.Weekday | generate_dimensions.py:196 | the weekday lies in 0..6, Monday being 0 |
| Calendar.WeekdayShift | generate_dimensions.py:196-215 | within a month the weekday advances by one per day, modulo 7 |
| Calendar.FirstOf2022IsSaturday | generate_dimensions.py:196 | 1 January 2022 is a Saturday |
| PeriodDimension.GetWeekRanges | generate_dimensions.py:184-218 | the while loop over `current_date` returns exactly the week ranges of the month |
| PeriodDimension.WeekRangesPartition | generate_dimensions.py:187-216 | the weeks partition days 1..last: the first starts on day 1 and the last ends on the last day; each starts the day after the previous ends and spans at most 7 days; weeks are numbered 1, 2, ...; every week but the first starts on a Monday and every week but the last ends on a Sunday |
| PeriodDimension.EveryDayInExactlyOneWeek | generate_dimensions.py:194-216 | every day of the month lies in exactly one week |
| PeriodDimension.WeekSpansSumToMonth | generate_dimensions.py:194-216 | the day spans of the weeks add up to the length of the month |
| PeriodDimension.PartitionOrdered | generate_dimensions.py:215 | an earlier week ends before a later week starts |
| PeriodDimension.January2022Weeks | generate_dimensions.py:184-218 | January 2022 has six weeks: 1-2, 3-9, 10-16, 17-23, 24-30 and 31 |
| PeriodDimension.SaturdayStartWeeks | generate_dimensions.py:184-218 | any 31-day month starting on a Saturday has those six weeks |
| PeriodDimension.GenerateDimPeriod | generate_dimensions.py:233-298 | the nested loops produce the depth-first year / quarter / month / week table, keyed 1, 2, 3, ... |
| PeriodDimension.AppendYear | generate_dimensions.py:236-298 | one pass of the year loop appends the year row and then its four quarters, with the keys continuing |
| PeriodDimension.AppendQuarter | generate_dimensions.py:250-298 | one pass of the quarter loop appends the quarter row and then its three months |
| PeriodDimension.AppendMonths | generate_dimensions.py:269-298 | the month loop of a quarter appends each month block in order |
| PeriodDimension.AppendMonth | generate_dimensions.py:269-298 | one pass of the month loop appends the month row and then its weeks |
| PeriodDimension.AppendWeekRows | generate_dimensions.py:286-298 | the week loop appends one row per week range, with the keys continuing |
| PeriodDimension.KeyRowsIndex | generate_dimensions.py:234-298 | row i of the table carries `date_key` i + 1 |
| PeriodDimension.PeriodTableLevels | generate_dimensions.py:236-283 | each year contributes 1 year row, 4 quarter rows and 12 month rows |
| PeriodDimension.PeriodTableWellFormed | generate_dimensions.py:238-298 | every row lies in the year range. A year row spans 1 January to 31 December. Quarter q spans the 1st of month 3q-2 to the last day of month 3q. A month row spans its month. A week row lies inside its month and spans at most 7 days. Coarser rows leave the finer fields empty. |
| GeographyDimension.GenerateProvinceRows | generate_dimensions.py:50-64 | the province loop yields the province rows, and the counter ends one past the last key |
| GeographyDimension.GenerateDistrictRows | generate_dimensions.py:66-90 | the district loop yields the district rows, and the counter ends one past the last key |
| GeographyDimension.GenerateSubdistrictRows | generate_dimensions.py:92-123 | the subdistrict loop yields the subdistrict rows, and the counter ends one past the last key |
| GeographyDimension.GenerateVillageRows | generate_dimensions.py:125-165 | the village loop yields the village rows, and the counter ends one past the last key |
| GeographyDimension.GenerateUpperLevels | generate_dimensions.py:47-123 | the first three levels, concatenated, starting at key 1 |
| GeographyDimension.GenerateDimGeography | generate_dimensions.py:47-168 | the whole dimension: provinces, districts, subdistricts and villages in that order |
| GeographyDimension.DistrictWithCodeFound | generate_dimensions.py:104-107 | the district lookup finds nothing exactly when no district has the code, and otherwise the first one that does |
| GeographyDimension.SubdistrictWithCodeFound | generate_dimensions.py:138-142 | the subdistrict lookup finds nothing exactly when no subdistrict has the code, and otherwise the first one that does |
| GeographyDimension.ProvinceRowsFrom | generate_dimensions.py:52-64 | every province row is the row of some province, keyed by its position |
| GeographyDimension.ProvinceRowsComplete | generate_dimensions.py:52-64 | every first occurrence of a province code has its row |
| GeographyDimension.ProvinceRowsUnique | generate_dimensions.py:52-64 | no two province rows share a province code |
| GeographyDimension.DistrictRowsFrom | generate_dimensions.py:69-90 | every district row is the row of a district whose key occurs there for the first time |
| GeographyDimension.DistrictRowsComplete | generate_dimensions.py:69-90 | every first occurrence of a (province code, district code) pair has its row |
| GeographyDimension.DistrictRowsUnique | generate_dimensions.py:73-75 | no two district rows share the (province code, district code) pair |
| GeographyDimension.SubdistrictRowsFrom | generate_dimensions.py:95-123 | every subdistrict row is the row of a kept subdistrict, with the province and district of the first district carrying its district code |
| GeographyDimension.SubdistrictRowsComplete | generate_dimensions.py:95-123 | every kept subdistrict has its row |
| GeographyDimension.SubdistrictRowsUnique | generate_dimensions.py:99-101 | no two subdistrict rows share the (district code, subdistrict code) pair |
| GeographyDimension.VillageRowsFrom | generate_dimensions.py:128-165 | every village row is the row of a kept village, with the parents found through its subdistrict |
| GeographyDimension.VillageRowsComplete | generate_dimensions.py:128-165 | every kept village has its row |
| GeographyDimension.VillageRowsUnique | generate_dimensions.py:133-135 | no two village rows share a village code |
| GeographyFacts.ProvinceLayer | generate_dimensions.py:52-64 | the province rows have dense keys from the first key, sit at level 1 and leave deeper fields empty |
| GeographyFacts.DistrictLayer | generate_dimensions.py:69-90 | the district rows have dense keys, sit at level 2 and leave deeper fields empty |
| GeographyFacts.SubdistrictLayer | generate_dimensions.py:95-123 | the subdistrict rows have dense keys, sit at level 3 and leave the village fields empty |
| GeographyFacts.VillageLayer | generate_dimensions.py:128-165 | the village rows have dense keys and sit at level 4 |
| GeographyFacts.UpperLevelsLayered | generate_dimensions.py:50-123 | the first three levels have dense keys from 1 and levels 1 to 3 in non-decreasing order |
| GeographyFacts.DimGeographyShape | generate_dimensions.py:47-165 | row k has `geo_key` k + 1 and a level in 1..4, and leaves every field deeper than that level empty; levels never decrease along the table |
| GeographyFacts.DistrictRowsCoverEveryKey | generate_dimensions.py:69-90 | every district's (province code, code) pair has a district row, known province or not |
| GeographyFacts.SubdistrictRowFor | generate_dimensions.py:95-123 | a subdistrict whose district exists has a row for its pair |
| GeographyFacts.SubdistrictRowHasDistrict | generate_dimensions.py:104-116 | every subdistrict row's district code is the code of some district |
| GeographyFacts.SubdistrictRowsPlaced | generate_dimensions.py:95-123 | a subdistrict's pair has a row exactly when some district carries its district code |
| GeographyFacts.VillageRowOrigin | generate_dimensions.py:128-165 | every village row comes from the first record with its code, and that record has both parents |
| GeographyFacts.VillageRowsPlaced | generate_dimensions.py:128-148 | a village code has a row exactly when the first record with that code has both parents; a dropped first occurrence also suppresses later duplicates |
| GeographyFacts.ProvinceNameLookup | generate_dimensions.py:35 | a province code maps to a name exactly when some province has it, and then to the last such province's name |
| GeographyFacts.DistrictNameLookup | generate_dimensions.py:36 | a district code maps to a name exactly when some district has it, and then to the last such district's name |
| Versioning.GetNextVersionNumber | generate_fact_kpi.py:96-115 | the loop over the file names returns the next version |
| Versioning.VersionsAreParsed | generate_fact_kpi.py:104-113 | a version is collected exactly when some matching file name parses to it |
| Versioning.NextVersionCases | generate_fact_kpi.py:101-115 | the next version is at least 1. It is 1 exactly when no matching name parses to a positive version. Otherwise it is one more than a version present. |
| Versioning.NextVersionExceedsExisting | generate_fact_kpi.py:115 | the next version exceeds every version already present |
| Versioning.MaxOfFacts | generate_fact_kpi.py:115 | `max` is an upper bound that occurs in the list |
| Versioning.Pad3Facts | generate_fact_kpi.py:1039 | `{version:03d}` has at least three digits and reads back as the version |
| Versioning.OutputFileNameRoundTrip | generate_fact_kpi.py:1039 | the written file name matches the glob pattern and parses back to its version |
| Versioning.NextVersionAfterWrite | generate_fact_kpi.py:1038-1040 | after writing the chosen file, the next run chooses one more |
| Ratios.SafeDivide | generate_fact_kpi.py:266-270 | the default for a zero denominator, otherwise the exact quotient |
| Ratios.SafePercentage | generate_fact_kpi.py:272-276 | the default for a zero denominator, otherwise 100 times the exact quotient |
| Ratios.ShareBounds | generate_fact_kpi.py:272-276 | a share of a sub-count lies in [0, 100]; it is 0 exactly when nothing is counted and 100 exactly when everything is |
| Ratios.ShareWhereFacts | generate_fact_kpi.py:345-346 | the share of rows meeting a condition lies in [0, 100]; it is 0 exactly when no row meets it and 100 exactly when there are rows and all do |
| Ratios.ShareSum3 | generate_fact_kpi.py:542-551 | shares of three disjoint counts add up to at most 100 |
| Ratios.ModeShareFacts | generate_fact_kpi.py:466-469 | the most common value's share lies in [0, 100] and is 0 exactly when no value is known |
| Ratios.UniformModeShare | generate_fact_kpi.py:466-469 | a column holding one value throughout has a mode share of 100 |
| Ratios.Clamp | generate_fact_kpi.py:1035 | the result lies in the bounds, keeps a value already inside them, and otherwise is the nearer bound |
| Ratios.Truncate | generate_fact_kpi.py:1001 | `astype('int64')` truncates toward zero |
| Ratios.FloorDivide | generate_fact_kpi.py:372 | Python's `//` on counts: the quotient q with q*b <= a < (q+1)*b, and 0 for no divisor |
| GlobalAggregates.Candidates | generate_fact_kpi.py:233 | the distinct values of the column, each once, and every value present |
| GlobalAggregates.MostFrequent | generate_fact_kpi.py:233-234 | a candidate with the highest count |
| GlobalAggregates.Top10Klu | generate_fact_kpi.py:232-234 | `value_counts().head(10)` of the KLU ids, as the top-10 selection over the candidates; its properties are stated by TopValuesFacts and Top10KluFacts |
| GlobalAggregates.TopValuesFacts | generate_fact_kpi.py:233-234 | `head(k)` of the counts is min(k, #distinct) distinct values, and every value chosen counts at least as often as every value left out |
| GlobalAggregates.Top10KluFacts | generate_fact_kpi.py:232-235 | the top-10 list is such a selection of 10 KLU ids, each the id of some KLU row |
| GlobalAggregates.GeraiCountZero | generate_fact_kpi.py:240-246 | a province absent from the outlet/cooperative join counts no outlets |
| GlobalAggregates.GeraiCountPositive | generate_fact_kpi.py:240-246 | an outlet whose cooperative is in the province makes its count positive |
| GlobalAggregates.GeraiPerProvinsi | generate_fact_kpi.py:238-247 | the outlet count per province of the outlet/cooperative left join, with only provinces that occur as keys; stated by GeraiCountZero, GeraiCountPositive and GeraiPerProvinsiLookup |
| GlobalAggregates.GeraiPerProvinsiLookup | generate_fact_kpi.py:238-247 | `gerai_per_provinsi.get(p, 0)` is the number of joined outlet rows of province p, and p is a key exactly when that number is positive |
| GlobalAggregates.ServiceDistribution | generate_fact_kpi.py:250-252 | the number of applications per partnership service, with only services that occur as keys; stated by ServiceDistributionLookup |
| GlobalAggregates.ServiceDistributionLookup | generate_fact_kpi.py:250-252 | `service_distribution.get(s, 0)` is the number of applications for service s, and s is a key exactly when some application has it |
| GlobalAggregates.CalculateGlobalAggregates | generate_fact_kpi.py:226-260 | the domain total is the number of domains; the verified count is at most the domain count and 0 exactly when no domain is verified |
| CooperativeKpi.CooperativeCounts | generate_fact_kpi.py:282-295 | KPI_01 is the number of scoped ids; KPI_02 and KPI_03 never exceed the table size and are 0 without a province or an internal district id |
| CooperativeKpi.CalculateCooperativeKpis | generate_fact_kpi.py:278-330 | `calculate_cooperative_kpis`: KPI_01 to KPI_07 of one village; stated by CooperativeCounts, CooperativeCapital and CooperativeRatios |
| CooperativeKpi.CooperativeCapital | generate_fact_kpi.py:297-306 | the average capital is the total over the scoped cooperatives; both are non-negative when every capital is |
| CooperativeKpi.CooperativeRatios | generate_fact_kpi.py:308-328 | KPI_06 and KPI_07 lie in [0, 100], are 100 exactly when every scoped cooperative qualifies and 0 exactly when none does |
| CooperativeKpi.MemberCounts | generate_fact_kpi.py:339-372 | KPI_09 counts the scoped members; KPI_18 is the floor of members per cooperative, 0 without cooperatives |
| CooperativeKpi.CalculateMemberKpis | generate_fact_kpi.py:332-374 | `calculate_member_kpis`: KPI_09 to KPI_13 and KPI_18 over the scoped members; stated by MemberCounts, MemberRatios and AverageSavingFacts |
| CooperativeKpi.MemberRatios | generate_fact_kpi.py:342-368 | KPI_10 (`'PEREMPUAN'`) and KPI_13 lie in [0, 100], 100 and 0 exactly when all or no scoped members qualify |
| CooperativeKpi.AverageSavingFacts | generate_fact_kpi.py:350-356 | KPI_11 and KPI_12 are the mean saving over the scoped members, 0 without members, and non-negative for non-negative savings |
| CooperativeKpi.CountCompleteStructures | generate_fact_kpi.py:412-429 | the `complete_structure_count` loop counts the ids whose cooperative has all three board roles |
| CooperativeKpi.CompleteBoardRoles | generate_fact_kpi.py:414-428 | the set of a cooperative's roles holds Ketua, Sekretaris and Bendahara exactly when each appears among its managers |
| CooperativeKpi.CompleteBoardsFacts | generate_fact_kpi.py:412-433 | the count is at most the number of ids; it equals it exactly when all ids have a complete board and is 0 exactly when none does |
| CooperativeKpi.ManagementCounts | generate_fact_kpi.py:383-408 | board members plus supervisors never exceed the scoped managers; KPI_16 (`'Perempuan'`) lies in [0, 100], 100 and 0 exactly when all or no board members are women |
| CooperativeKpi.CalculateManagementKpis | generate_fact_kpi.py:376-435 | `calculate_management_kpis`: KPI_14 to KPI_17 over the scoped management rows; stated by ManagementCounts and ManagementStructure |
| CooperativeKpi.ManagementStructure | generate_fact_kpi.py:410-433 | KPI_17 lies in [0, 100]; 100 exactly when every id has a complete board; 0 exactly when there are no ids, no management rows, or no complete board |
| BusinessKpi.OutletCounts | generate_fact_kpi.py:441-457 | KPI_19 counts the scoped outlets; KPI_20 is outlets per cooperative, 0 without cooperatives; KPI_21 is the province's outlet count, 0 without a province |
| BusinessKpi.CalculateOutletKpis | generate_fact_kpi.py:437-478 | `calculate_outlet_kpis`: KPI_19 to KPI_21, KPI_51 and KPI_52; stated by OutletCounts, OutletPhotoShare and TypeShareFacts |
| BusinessKpi.OutletPhotoShare | generate_fact_kpi.py:459-462 | KPI_51 lies in [0, 100], 100 exactly when every scoped outlet has a photo and 0 exactly when none does |
| BusinessKpi.TypeShareFacts | generate_fact_kpi.py:464-473 | KPI_52 lies in [0, 100], is 0 exactly when no outlet has a type, and is 100 when all outlets share one type |
| BusinessKpi.KluCounts | generate_fact_kpi.py:484-494 | KPI_27 is at most the scoped KLU rows and 0 exactly when there are none; KPI_28 is at most that and 0 exactly when no scoped KLU is in the top 10 |
| BusinessKpi.CalculateKluKpis | generate_fact_kpi.py:480-527 | `calculate_klu_kpis`: KPI_27, KPI_28 and KPI_30 to KPI_32; stated by KluCounts, KluPerCooperative, DiversificationAtMostAverage and SectorShareFacts |
| BusinessKpi.KluPerCooperative | generate_fact_kpi.py:520-525 | KPI_31 is KLU rows per cooperative (0 without cooperatives); KPI_32 is distinct KLUs over max(cooperatives, 1) |
| BusinessKpi.DiversificationAtMostAverage | generate_fact_kpi.py:520-525 | KPI_32 is non-negative and never exceeds KPI_31 |
| BusinessKpi.MergedSectorsLength | generate_fact_kpi.py:502-506 | with unique KLU ids in `dim_klu` the left merge keeps one row per scoped KLU |
| BusinessKpi.SectorShareFacts | generate_fact_kpi.py:499-518 | KPI_30 is non-negative, 0 without scoped KLUs, and at most 100 when `dim_klu` has unique KLU ids |
| PartnershipKpi.StatusShares | generate_fact_kpi.py:540-551 | each status share lies in [0, 100] with the all / none characterisation, and the three add up to at most 100 |
| PartnershipKpi.PartnershipShares | generate_fact_kpi.py:536-551 | KPI_33 counts the scoped applications; KPI_34 to KPI_36 lie in [0, 100] and add up to at most 100 |
| PartnershipKpi.CalculatePartnershipKpis | generate_fact_kpi.py:529-639 | `calculate_partnership_kpis`: KPI_33 to KPI_38, KPI_40 and KPI_53; stated by PartnershipShares, ProcessingTimeFacts, FirstServiceCountFacts and GrowthRateGlobal |
| PartnershipKpi.ProcessingTimeFacts | generate_fact_kpi.py:553-576 | KPI_53 is 0 when no duration is positive, and otherwise lies in [5, 72] |
| PartnershipKpi.ProcessingTime | generate_fact_kpi.py:553-576 | KPI_53: the mean of the positive durations capped at 72 hours, raised to at least 5, or 0 without any; stated by ProcessingTimeFacts |
| PartnershipKpi.FirstServiceCountFacts | generate_fact_kpi.py:583-589 | KPI_37 is 0 without applications; otherwise it is the global count of the first application's service, at least 1 and at least that service's count in the village |
| PartnershipKpi.SortedKeys | generate_fact_kpi.py:609 | the months of the grouping, strictly increasing, each present month once |
| PartnershipKpi.MonthlyCountsPositive | generate_fact_kpi.py:609 | every month of the grouping has at least one verified application |
| PartnershipKpi.RateFacts | generate_fact_kpi.py:617-618 | a month-over-month rate is at least -100, and positive, zero or negative as the count grows, stays or falls |
| PartnershipKpi.GrowthRates | generate_fact_kpi.py:613-619 | the `growth_rates` loop computes the rates between consecutive months |
| PartnershipKpi.GrowthRatesShape | generate_fact_kpi.py:611-619 | there is one rate per consecutive pair, each the rate of that pair |
| PartnershipKpi.GrowthRateFacts | generate_fact_kpi.py:591-634 | KPI_38 lies in [0, 100] and is 0 when the monthly counts only fall |
| PartnershipKpi.GrowthRate | generate_fact_kpi.py:591-634 | KPI_38: the mean month-over-month growth of verified applications, clipped to [0, 100], 0 with fewer than two months; stated by GrowthRateFacts and GrowthRateGlobal |
| PartnershipKpi.GrowthRateGlobal | generate_fact_kpi.py:591-634 | KPI_38 lies in [0, 100] and is the same for every village |
| VillageKpi.UnitShares | generate_fact_kpi.py:665-684 | each facility share lies in [0, 100], 100 and 0 exactly when all or no units qualify |
| VillageKpi.UnitTypeShareFacts | generate_fact_kpi.py:652-663 | KPI_42 lies in [0, 100], is 0 exactly when no unit has a type, and is 100 when all share one |
| VillageKpi.UpkdkFacilityShares | generate_fact_kpi.py:641-691 | KPI_41 counts the village's units; KPI_42 to KPI_44 and KPI_54 are their shares, with the facts above, and 0 without units |
| VillageKpi.CalculateUpkdkKpis | generate_fact_kpi.py:641-691 | `calculate_upkdk_kpis`: KPI_41 to KPI_44 and KPI_54 of the village's units; stated by UpkdkFacilityShares |
| VillageKpi.DomainKpiFacts | generate_fact_kpi.py:693-709 | KPI_45 is the number of domains; KPI_46 lies in [0, 100], 100 exactly when there are domains and all are verified, 0 exactly when none is |
| VillageKpi.CalculateDomainKpis | generate_fact_kpi.py:693-709 | `calculate_domain_kpis`: KPI_45 and KPI_46 from the global domain counts; stated by DomainKpiFacts |
| VillageKpi.CooperativesPer10000Facts | generate_fact_kpi.py:715-732 | KPI_08 is non-negative, and positive exactly when the first village record with the id has a known positive population and the village has cooperatives |
| VillageKpi.CooperativesPerVillageFacts | generate_fact_kpi.py:734-749 | KPI_47 lies in [1, 3]; it is 1 when every cooperative sits in its own village and 3 when there are at least three per village |
| VillageKpi.ClampedRatio | generate_fact_kpi.py:744-745 | the clamped average is 1 for one cooperative per village and 3 from three per village on |
| VillageKpi.CountGeoPoints | generate_fact_kpi.py:761-794 | the two counter loops give 3 points per cooperative and unit, and the number of filled location fields |
| VillageKpi.FilledCooperativeBounds | generate_fact_kpi.py:764-774 | at most three filled points per cooperative; all three exactly when every cooperative is complete, none exactly when no field is filled |
| VillageKpi.FilledUnitBounds | generate_fact_kpi.py:784-794 | likewise for the village's units |
| VillageKpi.LocatedShareFacts | generate_fact_kpi.py:796-800 | the score lies in [0, 100]; 100 exactly when there is a cooperative or unit and all are fully located; 0 exactly when no location field is filled |
| VillageKpi.CompletenessScoreFacts | generate_fact_kpi.py:755-800 | KPI_49 has those facts over the village's cooperatives and units |
| VillageKpi.CalculateGeoKpis | generate_fact_kpi.py:711-802 | `calculate_geo_kpis`: KPI_08, KPI_47, KPI_48 and KPI_49; stated by CooperativesPer10000Facts, CooperativesPerVillageFacts and CompletenessScoreFacts |
| Columns.FinaliseTable | generate_fact_kpi.py:975-1035 | one output row per collected row, each the finalised row |
| Columns.FinalRow | generate_fact_kpi.py:975-1035 | one collected row as it is written: the 56 expected columns in order, filled with 0 and converted to their type; stated by FinalRowCell |
| Columns.FinalRowCell | generate_fact_kpi.py:975-1035 | every row has the 56 expected columns in order. A column the row lacks holds 0. A BIGINT cell is the truncated value, so an integral value such as a count is kept. A DECIMAL(5,4) cell lies in [0, 100] and keeps a value already in that range. A DECIMAL(18,2) cell keeps its value. |
| FactEngine.LatestDateKey | generate_fact_kpi.py:822-827 | none exactly when no row has both a week and a month; otherwise the largest `date_key` among such rows |
| FactEngine.BuildLookup | generate_fact_kpi.py:837-853 | the code-to-id loops build the dictionary of the table |
| FactEngine.DistrictIdsFacts | generate_fact_kpi.py:837-844 | a district code maps to an id exactly when some district has it, and then to the last such district's id |
| FactEngine.VillageScope | generate_fact_kpi.py:875-889 | a scope, when there is one, has matching village ids and cooperative ids |
| FactEngine.ScopeExactly | generate_fact_kpi.py:875-889 | a geography row has a scope exactly when it is a village row, some village carries its code, and some cooperative sits in a village with that code |
| FactEngine.FirstIdWhereFacts | generate_fact_kpi.py:906-920 | a representative key is 0 when no row matches and otherwise the id of the first matching row |
| FactEngine.RepresentativeKeys | generate_fact_kpi.py:892-920 | the row's keys are the run's `date_key` and its `geo_key`. `outlet_id`, `business_partner_service_id` and `klu_id` come from the first row in cooperative scope. `upkdk_id` comes from the first unit of any matching village id. Each is 0 when no row is in scope. |
| FactEngine.RowOfCovers | generate_fact_kpi.py:891-932 | a fact row sets every one of the 56 expected columns |
| FactEngine.RowOfKeys | generate_fact_kpi.py:892-895 | the row carries its `date_key`, its `geo_key` and the number of scoped cooperatives |
| FactEngine.VillageRowCells | generate_fact_kpi.py:877-934 | a village with a scope yields a full row whose `TotalKoperasiTerdaftar` is the number of scoped cooperatives, at least 1 |
| FactEngine.CalculateVillageKpis | generate_fact_kpi.py:922-932 | the nine calculators applied to one village's scope, with the row's province and the internal district and subdistrict ids; stated through RowOfCovers, RowOfKeys and VillageRowCells |
| FactEngine.CollectFactRows | generate_fact_kpi.py:866-934 | the village loop collects, in order, the rows of the geography rows that have a scope |
| FactEngine.FactRows | generate_fact_kpi.py:866-934 | the rows the village loop collects from the first n geography rows, in order; stated by FactRowsExactly, FactRowsWellFormed and FactRowsOrdered |
| FactEngine.FactRowsExactly | generate_fact_kpi.py:866-934 | there is one collected row per geography row with a scope, and with distinct geography keys a geography row's key appears among the collected rows exactly when that row has a scope |
| FactEngine.EmittedKey | generate_fact_kpi.py:877-934 | a geography row yields a fact row exactly when it has a scope, and that row carries the geography row's `geo_key` |
| FactEngine.FactRowsWellFormed | generate_fact_kpi.py:866-934 | every collected row sets every column, carries the run's `date_key`, and has at least one cooperative |
| FactEngine.FactRowsOrdered | generate_fact_kpi.py:868-934 | with increasing geography keys, the rows come out in strictly increasing `geo_key` order, none past the last row read |
| FactEngine.FactTableRows | generate_fact_kpi.py:855-934 | the village loop over the village-level geography rows with the run's context (global aggregates, date key, code maps); stated by the FactRows lemmas |
| FactEngine.GenerateFactKpi | generate_fact_kpi.py:808-1035 | no table when the period dimension has no week row; otherwise one finalised row per collected village row |

## Left out

- Logging, progress output and console summaries are left out. They are output only.
- CSV loading, cleaning of column names, file sizes and `to_csv` are left
  out. The model takes the tables as sequences of records.
- The directory listing of `get_next_version_number` is a parameter, a
  sequence of base names.
- Versioning.VersionOf: it parses a version as a plain digit string. Python's
  `int()` also accepts a sign, surrounding whitespace and underscores, which
  the model does not.
- Float rounding (`round(2)`, `round(4)`, `float_format`) is left out, and so
  is NaN arithmetic. Values are exact reals, and cells that can be missing
  are `Option`s.
- `pd.to_datetime` parsing is left out. A partnership's duration in hours
  and its creation month are given already parsed. A timestamp that does not
  parse is `None`.
- GlobalAggregates.Top10KluFacts: pandas' order among equal counts is not
  modelled. The model breaks ties by first appearance, and the contract
  promises only a maximal-count selection of at most 10 values.
- BusinessKpi.SectorShareFacts: the bound of 100 holds only when `dim_klu`
  has one row per KLU id. A repeated KLU id makes the left merge duplicate
  rows, so before the clip the source can exceed 100.
- `create_mappings` is left out, because no calculator uses its results.
- `village_id_to_code` is left out, because nothing reads it.
- The village code prefix columns of the geography builder are left out,
  because nothing reads them.
- The `__main__` blocks are left out.
- The column-presence fallbacks (`'role' in columns`, `'type' in columns`,
  ...) are left out. Every column the calculators read is assumed present.
  So is `dim_klu` in the loaded data.
- The `try`/`except` fallbacks to 0 in the partnership calculator are left
  out. Parsing is outside the model and the arithmetic cannot fail.
- The outlet loop in `calculate_geo_kpis` is left out, because it does nothing.
- FactEngine.DistrictIds: codes are compared as strings. The source keys
  `district_code_to_id` by the district code as pandas read it, a float
  (generate_fact_kpi.py:842, 898). So two codes with the same float value,
  such as "11.1" and "11.10", share one entry there, and the last one wins.
  The model keeps them apart. A cooperative's `provinceId` is likewise
  compared with the geography row's province code as a string.
- `TEST_VILLAGE_LIMIT` is treated as unset, so every village row is processed.
- In the finalisation, pandas works column by column while the model works
  row by row. Both give the same table.
- The file write at the end of `generate_fact_kpi` is left out. The model
  computes the table and the file name.
- FactEngine.GenerateFactKpi: with no week row the source fails on `iloc[0]`;
  the model returns `None` instead.

## Notes

- January 2022 has six week rows, not five. 1 January 2022 is a Saturday,
  so the first week is 1-2 January and the sixth is 31 January alone. This
  follows the code.
- The partnership growth rate is computed over all verified applications of
  the table, not the village's, so every village gets the same value.
- `KluDiversificationIndex` sits in the percentage list, so the finalisation
  clips it to [0, 100] like a percentage.
