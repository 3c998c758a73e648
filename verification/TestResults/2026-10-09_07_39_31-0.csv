TestResult.DisplayName,TestResult.Outcome,TestResult.Duration,TestResult.ResourceCount,RandomSeed
UseFilters.BrandChangeTwiceReorders (correctness),Passed,00:00:00.2266870,201429,1
