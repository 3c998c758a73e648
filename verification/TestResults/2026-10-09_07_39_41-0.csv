TestResult.DisplayName,TestResult.Outcome,TestResult.Duration,TestResult.ResourceCount,RandomSeed
UseFilters.BrandChangeTwiceReorders (correctness),Passed,00:00:00.1891871,182076,3
