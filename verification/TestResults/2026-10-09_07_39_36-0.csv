TestResult.DisplayName,TestResult.Outcome,TestResult.Duration,TestResult.ResourceCount,RandomSeed
UseFilters.BrandChangeTwiceReorders (correctness),Passed,00:00:00.1926620,185972,2
