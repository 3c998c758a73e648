TestResult.DisplayName,TestResult.Outcome,TestResult.Duration,TestResult.ResourceCount,RandomSeed
UseFilters.BrandChangeTwiceReorders (correctness),Passed,00:00:00.2465177,185902,0
