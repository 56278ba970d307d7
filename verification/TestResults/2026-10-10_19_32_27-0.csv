TestResult.DisplayName,TestResult.Outcome,TestResult.Duration,TestResult.ResourceCount,RandomSeed
Patterns.BuildingCaptureAt (well-formedness),Failed,00:00:01.5319804,2075433,5
