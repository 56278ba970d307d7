TestResult.DisplayName,TestResult.Outcome,TestResult.Duration,TestResult.ResourceCount,RandomSeed
Patterns.BuildingCaptureAt (well-formedness),Failed,00:00:01.2497435,2075337,3
